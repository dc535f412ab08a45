/** The relational store the server actions talk to, in place of the ORM: four tables kept
    in insertion order (the order an unordered query returns them in), with unique ids, a
    unique event slug and foreign keys. Every write can also be refused by the external store
    for reasons outside the model (the `reject` flag). */
module Store {
  import opened Wrappers

  type Id = string

  datatype Event = Event(id: Id, name: string, slug: string, startDate: int, endDate: Option<int>)

  datatype Participant = Participant(id: Id, eventId: Id, name: string, email: string, category: string)

  /** `placeholders` is the JSON text column (nullable). */
  datatype Template = Template(id: Id, eventId: Id, name: string, imageUrl: string, placeholders: Option<string>)

  /** A certificate with `participantId == None` is a draft. */
  datatype Certificate = Certificate(id: Id, templateId: Id, participantId: Option<Id>)

  datatype Db = Db(events: seq<Event>, participants: seq<Participant>, templates: seq<Template>,
                   certificates: seq<Certificate>)

  function EventKey(e: Event): Id { e.id }
  function SlugKey(e: Event): Id { e.slug }
  function ParticipantKey(p: Participant): Id { p.id }
  function TemplateKey(t: Template): Id { t.id }
  function CertificateKey(c: Certificate): Id { c.id }

  // ---------------------------------------------------------------------------------------
  // Tables in general.

  /** Some row has key `id`. */
  predicate HasKey<T>(rows: seq<T>, key: T -> Id, id: Id)
  {
    exists i :: 0 <= i < |rows| && key(rows[i]) == id
  }

  /** No two rows share a key. */
  predicate UniqueKeys<T>(rows: seq<T>, key: T -> Id)
  {
    forall i, j :: 0 <= i < j < |rows| ==> key(rows[i]) != key(rows[j])
  }

  /** `findUnique({ where: { id } })`: the row with key `id`, if any. */
  function Find<T>(rows: seq<T>, key: T -> Id, id: Id): (r: Option<T>)
    ensures r.Some? ==> r.value in rows && key(r.value) == id
    ensures r.None? <==> !HasKey(rows, key, id)
    ensures UniqueKeys(rows, key) ==> forall i :: 0 <= i < |rows| && key(rows[i]) == id ==> r == Some(rows[i])
  {
    if rows == [] then None
    else if key(rows[0]) == id then Some(rows[0])
    else
      var r := Find(rows[1..], key, id);
      assert forall i :: 1 <= i < |rows| ==> rows[1..][i - 1] == rows[i];
      r
  }

  /** `delete({ where: { id } })` on the table: every row but the one with key `id`, in order. */
  function Without<T(!new)>(rows: seq<T>, key: T -> Id, id: Id): (r: seq<T>)
    ensures |r| <= |rows|
    ensures forall x {:trigger x in r} :: x in r <==> x in rows && key(x) != id
  {
    if rows == [] then []
    else (if key(rows[0]) == id then [] else [rows[0]]) + Without(rows[1..], key, id)
  }

  /** Deleting a key no row has changes nothing. */
  lemma {:induction false} WithoutMissing<T(!new)>(rows: seq<T>, key: T -> Id, id: Id)
    requires !HasKey(rows, key, id)
    ensures Without(rows, key, id) == rows
  {
    if rows != [] {
      assert key(rows[0]) != id;
      assert !HasKey(rows[1..], key, id) by {
        forall k | 0 <= k < |rows[1..]| ensures key(rows[1..][k]) != id {
          assert rows[1..][k] == rows[k + 1];
        }
      }
      WithoutMissing(rows[1..], key, id);
      assert rows == [rows[0]] + rows[1..];
    }
  }

  lemma TailUnique<T>(rows: seq<T>, key: T -> Id)
    requires rows != [] && UniqueKeys(rows, key)
    ensures UniqueKeys(rows[1..], key)
    ensures !HasKey(rows[1..], key, key(rows[0]))
  {
    var tail := rows[1..];
    assert forall i :: 0 <= i < |tail| ==> tail[i] == rows[i + 1];
  }

  /** After a delete no row has the deleted key. */
  lemma WithoutDropsKey<T(!new)>(rows: seq<T>, key: T -> Id, id: Id)
    ensures !HasKey(Without(rows, key, id), key, id)
  {
    var r := Without(rows, key, id);
    forall i | 0 <= i < |r| ensures key(r[i]) != id {
      assert r[i] in r;
    }
  }

  /** Deleting keeps keys unique. */
  lemma {:induction false} WithoutUnique<T(!new)>(rows: seq<T>, key: T -> Id, id: Id)
    requires UniqueKeys(rows, key)
    ensures UniqueKeys(Without(rows, key, id), key)
  {
    if rows != [] {
      var tail := rows[1..];
      TailUnique(rows, key);
      WithoutUnique(tail, key, id);
      var rest := Without(tail, key, id);
      if key(rows[0]) != id {
        var r := [rows[0]] + rest;
        forall k | 0 <= k < |rest| ensures key(rest[k]) != key(rows[0]) {
          assert rest[k] in rest;
        }
        forall i, j | 0 <= i < j < |r| ensures key(r[i]) != key(r[j]) {
          if i == 0 {
            assert r[j] == rest[j - 1];
          } else {
            assert r[i] == rest[i - 1] && r[j] == rest[j - 1];
          }
        }
      }
    }
  }

  /** Deleting a present key with unique keys removes exactly one row. */
  lemma {:induction false} WithoutCount<T(!new)>(rows: seq<T>, key: T -> Id, id: Id)
    requires UniqueKeys(rows, key) && HasKey(rows, key, id)
    ensures |Without(rows, key, id)| == |rows| - 1
  {
    var tail := rows[1..];
    TailUnique(rows, key);
    if key(rows[0]) != id {
      assert HasKey(tail, key, id) by {
        var k :| 0 <= k < |rows| && key(rows[k]) == id;
        assert tail[k - 1] == rows[k];
      }
      WithoutCount(tail, key, id);
    } else {
      WithoutMissing(tail, key, id);
    }
  }

  /** Deleting from a table that starts with row `x`. */
  lemma WithoutCons<T(!new)>(x: T, rest: seq<T>, key: T -> Id, id: Id)
    ensures Without([x] + rest, key, id) == (if key(x) == id then [] else [x]) + Without(rest, key, id)
  {
    assert ([x] + rest)[0] == x && ([x] + rest)[1..] == rest;
  }

  /** Deleting works row by row: the rows left keep their table order. */
  lemma {:induction false} WithoutAppend<T(!new)>(a: seq<T>, b: seq<T>, key: T -> Id, id: Id)
    ensures Without(a + b, key, id) == Without(a, key, id) + Without(b, key, id)
  {
    if a == [] {
      assert a + b == b;
    } else {
      var x, a' := a[0], a[1..];
      var head := if key(x) == id then [] else [x];
      assert a == [x] + a' && a + b == [x] + (a' + b);
      WithoutCons(x, a' + b, key, id);
      WithoutCons(x, a', key, id);
      WithoutAppend(a', b, key, id);
      var w, wb := Without(a', key, id), Without(b, key, id);
      assert head + (w + wb) == (head + w) + wb;
    }
  }

  /** The length of the longest key. */
  function LongestKey<T>(rows: seq<T>, key: T -> Id): (n: nat)
    ensures forall i :: 0 <= i < |rows| ==> |key(rows[i])| <= n
  {
    if rows == [] then 0
    else
      var n := LongestKey(rows[1..], key);
      assert forall i :: 1 <= i < |rows| ==> rows[1..][i - 1] == rows[i];
      if |key(rows[0])| > n then |key(rows[0])| else n
  }

  /** A generated id (cuid in the source): any id no row of the table has. The model picks the
      id made of one character more than the longest key. */
  function FreshKey<T>(rows: seq<T>, key: T -> Id): (id: Id)
    ensures !HasKey(rows, key, id)
  {
    seq(LongestKey(rows, key) + 1, _ => 'c')
  }

  /** The rows whose key is `id`, each rewritten by `f`; every other row stays as it was. */
  function UpdateWhere<T>(rows: seq<T>, key: T -> Id, id: Id, f: T -> T): (r: seq<T>)
    ensures |r| == |rows|
    ensures forall i :: 0 <= i < |rows| ==> r[i] == if key(rows[i]) == id then f(rows[i]) else rows[i]
  {
    if rows == [] then [] else [if key(rows[0]) == id then f(rows[0]) else rows[0]] + UpdateWhere(rows[1..], key, id, f)
  }

  // ---------------------------------------------------------------------------------------
  // The database.

  /** Unique ids and slugs, and every foreign key names an existing row. */
  predicate Consistent(db: Db)
  {
    && UniqueKeys(db.events, EventKey)
    && UniqueKeys(db.events, SlugKey)
    && UniqueKeys(db.participants, ParticipantKey)
    && UniqueKeys(db.templates, TemplateKey)
    && UniqueKeys(db.certificates, CertificateKey)
    && (forall i :: 0 <= i < |db.participants| ==> HasKey(db.events, EventKey, db.participants[i].eventId))
    && (forall i :: 0 <= i < |db.templates| ==> HasKey(db.events, EventKey, db.templates[i].eventId))
    && (forall i :: 0 <= i < |db.certificates| ==> CertificateLinksResolve(db, db.certificates[i]))
  }

  /** A certificate's template exists, and so does its participant when it has one. */
  predicate CertificateLinksResolve(db: Db, c: Certificate)
  {
    && HasKey(db.templates, TemplateKey, c.templateId)
    && (c.participantId.Some? ==> HasKey(db.participants, ParticipantKey, c.participantId.value))
  }

  /** Does some certificate belong to participant `pid` (`participant.certificate`)? */
  predicate HasCertificate(db: Db, pid: Id)
  {
    exists i :: 0 <= i < |db.certificates| && db.certificates[i].participantId == Some(pid)
  }

  /** Is template `tid` referenced by some certificate? */
  predicate TemplateInUse(db: Db, tid: Id)
  {
    exists i :: 0 <= i < |db.certificates| && db.certificates[i].templateId == tid
  }

  /** `event.templates`: the event's templates in table order. */
  function TemplatesOf(templates: seq<Template>, eventId: Id): (r: seq<Template>)
    ensures forall t :: t in r <==> t in templates && t.eventId == eventId
    ensures |r| <= |templates|
  {
    if templates == [] then []
    else (if templates[0].eventId == eventId then [templates[0]] else []) + TemplatesOf(templates[1..], eventId)
  }

  /** The event's participants without a certificate, in table order
      (`event.participants.filter(p => !p.certificate)`). */
  function Eligible(db: Db, eventId: Id): (r: seq<Participant>)
    ensures forall p :: p in r <==> p in db.participants && p.eventId == eventId && !HasCertificate(db, p.id)
    ensures r == [] <==> forall p :: p in db.participants && p.eventId == eventId ==> HasCertificate(db, p.id)
  {
    var r := EligibleAmong(db, db.participants, eventId);
    assert r != [] ==> r[0] in r;
    r
  }

  /** The participants of `ps` that belong to the event and have no certificate, in order. */
  function EligibleAmong(db: Db, ps: seq<Participant>, eventId: Id): (r: seq<Participant>)
    ensures forall p {:trigger p in r} :: p in r <==> p in ps && p.eventId == eventId && !HasCertificate(db, p.id)
    ensures |r| <= |ps|
  {
    if ps == [] then []
    else
      (if ps[0].eventId == eventId && !HasCertificate(db, ps[0].id) then [ps[0]] else []) +
      EligibleAmong(db, ps[1..], eventId)
  }

  /** The event's templates of a concatenated table are those of each part, in turn; so
      `TemplatesOf` keeps table order. */
  lemma {:induction false} TemplatesOfAppend(a: seq<Template>, b: seq<Template>, eventId: Id)
    ensures TemplatesOf(a + b, eventId) == TemplatesOf(a, eventId) + TemplatesOf(b, eventId)
  {
    if a == [] {
      assert a + b == b;
    } else {
      var head := if a[0].eventId == eventId then [a[0]] else [];
      assert (a + b)[0] == a[0] && (a + b)[1..] == a[1..] + b;
      assert TemplatesOf(a + b, eventId) == head + TemplatesOf(a[1..] + b, eventId);
      TemplatesOfAppend(a[1..], b, eventId);
      assert TemplatesOf(a, eventId) == head + TemplatesOf(a[1..], eventId);
      assert head + (TemplatesOf(a[1..], eventId) + TemplatesOf(b, eventId)) ==
             (head + TemplatesOf(a[1..], eventId)) + TemplatesOf(b, eventId);
    }
  }

  /** `event.templates[0]` is the event's first template in table order. */
  lemma {:induction false} TemplatesOfFirst(templates: seq<Template>, eventId: Id)
    requires TemplatesOf(templates, eventId) != []
    ensures exists k :: 0 <= k < |templates| && templates[k] == TemplatesOf(templates, eventId)[0] &&
                        templates[k].eventId == eventId &&
                        (forall j :: 0 <= j < k ==> templates[j].eventId != eventId)
  {
    if templates[0].eventId != eventId {
      var tail := templates[1..];
      TemplatesOfFirst(tail, eventId);
      var k :| 0 <= k < |tail| && tail[k] == TemplatesOf(tail, eventId)[0] &&
        tail[k].eventId == eventId && forall j :: 0 <= j < k ==> tail[j].eventId != eventId;
      assert templates[k + 1] == tail[k];
      forall j | 0 <= j < k + 1 ensures templates[j].eventId != eventId {
        if j > 0 {
          assert templates[j] == tail[j - 1];
        }
      }
    }
  }

  /** The eligible participants of a concatenated table are those of each part, in turn; so
      `EligibleAmong` keeps table order. */
  lemma {:induction false} EligibleAmongAppend(db: Db, a: seq<Participant>, b: seq<Participant>, eventId: Id)
    ensures EligibleAmong(db, a + b, eventId) == EligibleAmong(db, a, eventId) + EligibleAmong(db, b, eventId)
  {
    if a == [] {
      assert a + b == b;
    } else {
      var head := if a[0].eventId == eventId && !HasCertificate(db, a[0].id) then [a[0]] else [];
      assert (a + b)[0] == a[0] && (a + b)[1..] == a[1..] + b;
      assert EligibleAmong(db, a + b, eventId) == head + EligibleAmong(db, a[1..] + b, eventId);
      EligibleAmongAppend(db, a[1..], b, eventId);
      assert EligibleAmong(db, a, eventId) == head + EligibleAmong(db, a[1..], eventId);
      assert head + (EligibleAmong(db, a[1..], eventId) + EligibleAmong(db, b, eventId)) ==
             (head + EligibleAmong(db, a[1..], eventId)) + EligibleAmong(db, b, eventId);
    }
  }

  /** Filtering a table with unique ids lists each participant once. */
  lemma {:induction false} EligibleAmongUnique(db: Db, ps: seq<Participant>, eventId: Id)
    requires UniqueKeys(ps, ParticipantKey)
    ensures UniqueKeys(EligibleAmong(db, ps, eventId), ParticipantKey)
  {
    if ps != [] {
      var tail := ps[1..];
      TailUnique(ps, ParticipantKey);
      EligibleAmongUnique(db, tail, eventId);
      var rest := EligibleAmong(db, tail, eventId);
      if ps[0].eventId == eventId && !HasCertificate(db, ps[0].id) {
        var r := [ps[0]] + rest;
        forall k | 0 <= k < |rest| ensures rest[k].id != ps[0].id {
          assert rest[k] in rest;
        }
        forall i, j | 0 <= i < j < |r| ensures ParticipantKey(r[i]) != ParticipantKey(r[j]) {
          if i == 0 {
            assert r[j] == rest[j - 1];
          } else {
            assert r[i] == rest[i - 1] && r[j] == rest[j - 1];
          }
        }
      }
    }
  }

  /** In a consistent database the participants to certify are listed once each. */
  lemma EligibleUnique(db: Db, eventId: Id)
    requires Consistent(db)
    ensures UniqueKeys(Eligible(db, eventId), ParticipantKey)
  {
    EligibleAmongUnique(db, db.participants, eventId);
  }

  /** The certificate table after `update({ where: { id }, data: { participantId } })`. */
  function BindParticipant(certs: seq<Certificate>, id: Id, pid: Id): (r: seq<Certificate>)
    ensures |r| == |certs|
    ensures forall i :: 0 <= i < |certs| && certs[i].id != id ==> r[i] == certs[i]
    ensures forall i :: 0 <= i < |certs| && certs[i].id == id ==> r[i] == certs[i].(participantId := Some(pid))
  {
    UpdateWhere(certs, CertificateKey, id, (c: Certificate) => c.(participantId := Some(pid)))
  }

  /** The template table after `update({ where: { id }, data: { imageUrl, placeholders } })`. */
  function SetContent(templates: seq<Template>, id: Id, imageUrl: string, placeholders: string): (r: seq<Template>)
    ensures |r| == |templates|
    ensures forall i :: 0 <= i < |templates| && templates[i].id != id ==> r[i] == templates[i]
    ensures forall i :: 0 <= i < |templates| && templates[i].id == id ==>
      r[i] == templates[i].(imageUrl := imageUrl, placeholders := Some(placeholders))
  {
    UpdateWhere(templates, TemplateKey, id,
                (t: Template) => t.(imageUrl := imageUrl, placeholders := Some(placeholders)))
  }

  /** Deleting a template no certificate references keeps the database consistent. */
  lemma RemoveTemplateConsistent(db: Db, id: Id)
    requires Consistent(db) && !TemplateInUse(db, id)
    ensures Consistent(db.(templates := Without(db.templates, TemplateKey, id)))
  {
    var after := db.(templates := Without(db.templates, TemplateKey, id));
    WithoutUnique(db.templates, TemplateKey, id);
    forall i | 0 <= i < |after.templates| ensures HasKey(db.events, EventKey, after.templates[i].eventId) {
      var t := after.templates[i];
      assert t in after.templates;
      var k :| 0 <= k < |db.templates| && db.templates[k] == t;
    }
    forall i | 0 <= i < |db.certificates| ensures CertificateLinksResolve(after, db.certificates[i]) {
      var c := db.certificates[i];
      assert CertificateLinksResolve(db, c);
      assert c.templateId != id;
      var k :| 0 <= k < |db.templates| && db.templates[k].id == c.templateId;
      assert db.templates[k] in after.templates;
      var m :| 0 <= m < |after.templates| && after.templates[m] == db.templates[k];
    }
  }

  /** Deleting a certificate keeps the database consistent. */
  lemma RemoveCertificateConsistent(db: Db, id: Id)
    requires Consistent(db)
    ensures Consistent(db.(certificates := Without(db.certificates, CertificateKey, id)))
  {
    var after := db.(certificates := Without(db.certificates, CertificateKey, id));
    WithoutUnique(db.certificates, CertificateKey, id);
    forall i | 0 <= i < |after.certificates| ensures CertificateLinksResolve(after, after.certificates[i]) {
      var c := after.certificates[i];
      assert c in after.certificates;
      var k :| 0 <= k < |db.certificates| && db.certificates[k] == c;
    }
  }

  // ---------------------------------------------------------------------------------------
  // The store itself.

  class Store {
    var events: seq<Event>
    var participants: seq<Participant>
    var templates: seq<Template>
    var certificates: seq<Certificate>

    /** The current contents as a value. */
    function State(): Db
      reads this
    {
      Db(events, participants, templates, certificates)
    }

    ghost predicate Valid()
      reads this
    {
      Consistent(State())
    }

    constructor ()
      ensures State() == Db([], [], [], []) && Valid()
    {
      events, participants, templates, certificates := [], [], [], [];
    }

    /** `event.create`: refused for a taken slug; the new event gets a fresh id. */
    method CreateEvent(name: string, slug: string, startDate: int, endDate: Option<int>, reject: bool)
      returns (r: Option<Event>)
      requires Valid()
      modifies this
      ensures Valid()
      ensures r.Some? <==> !reject && !HasKey(old(events), SlugKey, slug)
      ensures r.None? ==> State() == old(State())
      ensures r.Some? ==>
        && r.value == Event(FreshKey(old(events), EventKey), name, slug, startDate, endDate)
        && State() == old(State()).(events := old(events) + [r.value])
    {
      if reject || HasKey(events, SlugKey, slug) {
        return None;
      }
      var e := Event(FreshKey(events, EventKey), name, slug, startDate, endDate);
      events := events + [e];
      r := Some(e);
      assert HasKey(old(events), EventKey, e.id) ==> false;
      forall i | 0 <= i < |old(events)| ensures HasKey(events, EventKey, old(events)[i].id) {
        assert events[i] == old(events)[i];
      }
      forall i | 0 <= i < |certificates| ensures CertificateLinksResolve(State(), certificates[i]) {
        assert CertificateLinksResolve(old(State()), certificates[i]);
      }
    }

    /** `participant.create`: refused when the event does not exist; fresh id. */
    method CreateParticipant(eventId: Id, name: string, email: string, category: string, reject: bool)
      returns (r: Option<Participant>)
      requires Valid()
      modifies this
      ensures Valid()
      ensures r.Some? <==> !reject && HasKey(old(events), EventKey, eventId)
      ensures r.None? ==> State() == old(State())
      ensures r.Some? ==>
        && r.value == Participant(FreshKey(old(participants), ParticipantKey), eventId, name, email, category)
        && State() == old(State()).(participants := old(participants) + [r.value])
    {
      if reject || !HasKey(events, EventKey, eventId) {
        return None;
      }
      var p := Participant(FreshKey(participants, ParticipantKey), eventId, name, email, category);
      participants := participants + [p];
      r := Some(p);
      forall i | 0 <= i < |certificates| ensures CertificateLinksResolve(State(), certificates[i]) {
        var c := certificates[i];
        assert CertificateLinksResolve(old(State()), c);
        if c.participantId.Some? {
          var k :| 0 <= k < |old(participants)| && old(participants)[k].id == c.participantId.value;
          assert participants[k] == old(participants)[k];
        }
      }
    }

    /** `certificateTemplate.create`: refused when the event does not exist; fresh id. */
    method CreateTemplate(eventId: Id, name: string, imageUrl: string, placeholders: Option<string>, reject: bool)
      returns (r: Option<Template>)
      requires Valid()
      modifies this
      ensures Valid()
      ensures r.Some? <==> !reject && HasKey(old(events), EventKey, eventId)
      ensures r.None? ==> State() == old(State())
      ensures r.Some? ==>
        && r.value == Template(FreshKey(old(templates), TemplateKey), eventId, name, imageUrl, placeholders)
        && State() == old(State()).(templates := old(templates) + [r.value])
    {
      if reject || !HasKey(events, EventKey, eventId) {
        return None;
      }
      var t := Template(FreshKey(templates, TemplateKey), eventId, name, imageUrl, placeholders);
      templates := templates + [t];
      r := Some(t);
      forall i | 0 <= i < |certificates| ensures CertificateLinksResolve(State(), certificates[i]) {
        var c := certificates[i];
        assert CertificateLinksResolve(old(State()), c);
        var k :| 0 <= k < |old(templates)| && old(templates)[k].id == c.templateId;
        assert templates[k] == old(templates)[k];
      }
    }

    /** `certificateTemplate.update`: refused when no template has that id. */
    method UpdateTemplate(id: Id, imageUrl: string, placeholders: string, reject: bool) returns (ok: bool)
      requires Valid()
      modifies this
      ensures Valid()
      ensures ok <==> !reject && HasKey(old(templates), TemplateKey, id)
      ensures !ok ==> State() == old(State())
      ensures ok ==> State() == old(State()).(templates := SetContent(old(templates), id, imageUrl, placeholders))
    {
      if reject || !HasKey(templates, TemplateKey, id) {
        return false;
      }
      templates := SetContent(templates, id, imageUrl, placeholders);
      ok := true;
      assert forall i :: 0 <= i < |templates| ==> templates[i].id == old(templates)[i].id && templates[i].eventId == old(templates)[i].eventId;
      forall i | 0 <= i < |certificates| ensures CertificateLinksResolve(State(), certificates[i]) {
        var c := certificates[i];
        assert CertificateLinksResolve(old(State()), c);
        var k :| 0 <= k < |old(templates)| && old(templates)[k].id == c.templateId;
        assert templates[k].id == c.templateId;
      }
    }

    /** `certificateTemplate.delete`: refused when no template has that id, and when a
        certificate still refers to it (a required relation restricts deletion). */
    method DeleteTemplate(id: Id, reject: bool) returns (ok: bool)
      requires Valid()
      modifies this
      ensures Valid()
      ensures ok <==> !reject && HasKey(old(templates), TemplateKey, id) && !TemplateInUse(old(State()), id)
      ensures !ok ==> State() == old(State())
      ensures ok ==> State() == old(State()).(templates := Without(old(templates), TemplateKey, id))
    {
      if reject || !HasKey(templates, TemplateKey, id) || TemplateInUse(State(), id) {
        return false;
      }
      RemoveTemplateConsistent(State(), id);
      templates := Without(templates, TemplateKey, id);
      ok := true;
    }

    /** `certificate.create`: refused for a taken custom id, a missing template or a missing
        participant; without a custom id the certificate gets a fresh id. */
    method CreateCertificate(customId: Option<Id>, templateId: Id, participantId: Option<Id>, reject: bool)
      returns (r: Option<Certificate>)
      requires Valid()
      modifies this
      ensures Valid()
      ensures r.Some? <==>
        && !reject
        && (customId.Some? ==> !HasKey(old(certificates), CertificateKey, customId.value))
        && HasKey(old(templates), TemplateKey, templateId)
        && (participantId.Some? ==> HasKey(old(participants), ParticipantKey, participantId.value))
      ensures r.None? ==> State() == old(State())
      ensures r.Some? ==>
        && r.value == Certificate(customId.GetOr(FreshKey(old(certificates), CertificateKey)), templateId, participantId)
        && State() == old(State()).(certificates := old(certificates) + [r.value])
    {
      if reject || (customId.Some? && HasKey(certificates, CertificateKey, customId.value))
         || !HasKey(templates, TemplateKey, templateId)
         || (participantId.Some? && !HasKey(participants, ParticipantKey, participantId.value)) {
        return None;
      }
      var c := Certificate(customId.GetOr(FreshKey(certificates, CertificateKey)), templateId, participantId);
      certificates := certificates + [c];
      r := Some(c);
      assert CertificateLinksResolve(State(), c);
      forall i | 0 <= i < |old(certificates)| ensures CertificateLinksResolve(State(), certificates[i]) {
        assert certificates[i] == old(certificates)[i];
        assert CertificateLinksResolve(old(State()), old(certificates)[i]);
      }
    }

    /** `certificate.update` of `participantId`: refused when no certificate has that id or
        the participant does not exist. */
    method BindCertificate(id: Id, participantId: Id, reject: bool) returns (ok: bool)
      requires Valid()
      modifies this
      ensures Valid()
      ensures ok <==> !reject && HasKey(old(certificates), CertificateKey, id)
                      && HasKey(old(participants), ParticipantKey, participantId)
      ensures !ok ==> State() == old(State())
      ensures ok ==> State() == old(State()).(certificates := BindParticipant(old(certificates), id, participantId))
    {
      if reject || !HasKey(certificates, CertificateKey, id) || !HasKey(participants, ParticipantKey, participantId) {
        return false;
      }
      certificates := BindParticipant(certificates, id, participantId);
      ok := true;
      forall i | 0 <= i < |certificates| ensures CertificateLinksResolve(State(), certificates[i]) {
        assert CertificateLinksResolve(old(State()), old(certificates)[i]);
      }
      assert forall i :: 0 <= i < |certificates| ==> certificates[i].id == old(certificates)[i].id;
    }

    /** `certificate.delete`: refused when no certificate has that id. */
    method DeleteCertificate(id: Id, reject: bool) returns (ok: bool)
      requires Valid()
      modifies this
      ensures Valid()
      ensures ok <==> !reject && HasKey(old(certificates), CertificateKey, id)
      ensures !ok ==> State() == old(State())
      ensures ok ==> State() == old(State()).(certificates := Without(old(certificates), CertificateKey, id))
      ensures ok ==> |certificates| == |old(certificates)| - 1
      ensures ok ==> !HasKey(certificates, CertificateKey, id)
    {
      if reject || !HasKey(certificates, CertificateKey, id) {
        return false;
      }
      RemoveCertificateConsistent(State(), id);
      WithoutCount(certificates, CertificateKey, id);
      WithoutDropsKey(certificates, CertificateKey, id);
      certificates := Without(certificates, CertificateKey, id);
      ok := true;
    }
  }
}
