/** Event creation from the new-event form (app/actions/events.ts). Dates are parsed by
    `parseDate`, which stands for `new Date(text)`: `None` is an Invalid Date, `Some(t)` the
    instant `t`. */
module Events {
  import opened Wrappers
  import opened Strings
  import opened Forms
  import opened Store

  /** An event form that passed validation. `endDate` is `None` when it was absent or empty. */
  datatype NewEvent = NewEvent(name: string, slug: string, startDate: string, endDate: Option<string>)

  /** `formData.get('endDate') || undefined`: an empty end date counts as none given. */
  function EndDateField(endDate: Option<string>): (r: Option<string>)
    ensures r.Some? <==> Truthy(endDate)
    ensures r.Some? ==> r == endDate
  {
    if Truthy(endDate) then endDate else None
  }

  /** `eventSchema.safeParse`: name and slug of at least three characters, and a start date
      that parses. The end date never fails validation. */
  function ValidateEvent(name: Option<string>, slug: Option<string>, startDate: Option<string>,
                         endDate: Option<string>, parseDate: string -> Option<int>): (r: Validation<NewEvent>)
    ensures r.Passed? <==>
      name.Some? && |name.value| >= 3 && slug.Some? && |slug.value| >= 3
      && startDate.Some? && parseDate(startDate.value).Some?
    ensures r.Passed? ==> r.value == NewEvent(name.value, slug.value, startDate.value, EndDateField(endDate))
    ensures r.Failed? ==>
      && ("name" in r.errors <==> !(name.Some? && |name.value| >= 3))
      && ("slug" in r.errors <==> !(slug.Some? && |slug.value| >= 3))
      && ("startDate" in r.errors <==> !(startDate.Some? && parseDate(startDate.value).Some?))
      && (forall f :: f in r.errors ==> f in {"name", "slug", "startDate"})
    ensures r.Failed? && "name" in r.errors && name.Some? ==> r.errors["name"] == ["Name must be at least 3 characters"]
    ensures r.Failed? && "slug" in r.errors && slug.Some? ==> r.errors["slug"] == ["Slug must be at least 3 characters"]
    ensures r.Failed? && "startDate" in r.errors && startDate.Some? ==>
      r.errors["startDate"] == ["A valid start date is required."]
    ensures r.Failed? && name.None? ==> r.errors["name"] == [NullMessage]
    ensures r.Failed? && slug.None? ==> r.errors["slug"] == [NullMessage]
    ensures r.Failed? && startDate.None? ==> r.errors["startDate"] == [NullMessage]
  {
    var nameIssues := StringIssues(name, (s: string) => |s| >= 3, "Name must be at least 3 characters");
    var slugIssues := StringIssues(slug, (s: string) => |s| >= 3, "Slug must be at least 3 characters");
    var dateIssues := StringIssues(startDate, (s: string) => parseDate(s).Some?, "A valid start date is required.");
    assert "name" != "slug" && "name" != "startDate" && "slug" != "startDate" by {
      assert "name"[0] != "slug"[0] && "name"[0] != "startDate"[0] && |"slug"| != |"startDate"|;
    }
    var errors := Report(Report(Report(map[], "name", nameIssues), "slug", slugIssues), "startDate", dateIssues);
    if errors == map[] then Passed(NewEvent(name.value, slug.value, startDate.value, EndDateField(endDate)))
    else Failed(errors)
  }

  datatype CreateEventOutcome = Invalid(errors: map<string, seq<string>>) | DbError | Redirect(path: string)

  /** The returned `message` (a redirect returns nothing). */
  function CreateEventMessage(o: CreateEventOutcome): Option<string>
  {
    match o
    case Invalid(_) => Some("Missing Fields. Failed to Create Event.")
    case DbError => Some("Database Error: Failed to Create Event. Slug might be taken.")
    case Redirect(_) => None
  }

  /** `createEvent`: validates, then writes the event. The store refuses a taken slug and an
      end date that does not parse; either refusal is reported and nothing is written. Success
      redirects to the dashboard. */
  method CreateEvent(store: Store, name: Option<string>, slug: Option<string>, startDate: Option<string>,
                     endDate: Option<string>, parseDate: string -> Option<int>, reject: bool)
    returns (r: CreateEventOutcome)
    requires store.Valid()
    modifies store
    ensures store.Valid()
    ensures r.Invalid? <==> ValidateEvent(name, slug, startDate, endDate, parseDate).Failed?
    ensures r.Invalid? ==> r.errors == ValidateEvent(name, slug, startDate, endDate, parseDate).errors
    ensures r.Redirect? <==>
      && ValidateEvent(name, slug, startDate, endDate, parseDate).Passed?
      && !reject
      && !(Truthy(endDate) && parseDate(endDate.value).None?)
      && !HasKey(old(store.events), SlugKey, slug.value)
    ensures !r.Redirect? ==> store.State() == old(store.State())
    ensures r.Redirect? ==>
      && r.path == "/dashboard"
      && store.State() == old(store.State()).(events := old(store.events) +
           [Event(FreshKey(old(store.events), EventKey), name.value, slug.value, parseDate(startDate.value).value,
                  if Truthy(endDate) then parseDate(endDate.value) else None)])
  {
    var v := ValidateEvent(name, slug, startDate, endDate, parseDate);
    if v.Failed? {
      return Invalid(v.errors);
    }
    var e := v.value;
    var end := if e.endDate.Some? then parseDate(e.endDate.value) else None;
    if e.endDate.Some? && end.None? {
      return DbError;
    }
    var created := store.CreateEvent(e.name, e.slug, parseDate(e.startDate).value, end, reject);
    if created.None? {
      return DbError;
    }
    r := Redirect("/dashboard");
  }
}
