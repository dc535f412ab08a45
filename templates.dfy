/** The template actions: delete, save from the designer, and list the available background
    images (app/actions/templates.ts). */
module Templates {
  import opened Wrappers
  import opened Strings
  import opened Placeholders
  import opened Store
  import opened TemplateImages

  /** `{ success: true, message }` or `{ error }`. */
  datatype ActionResult = Success(message: string) | Failure(error: string)

  /** `deleteTemplate`: removes that template only; a refused delete (no such template, one
      still used by a certificate, or a store failure) reports an error and changes nothing. */
  method DeleteTemplate(store: Store, templateId: Id, eventId: Id, reject: bool) returns (r: ActionResult)
    requires store.Valid()
    modifies store
    ensures store.Valid()
    ensures r.Success? <==>
      !reject && HasKey(old(store.templates), TemplateKey, templateId) && !TemplateInUse(old(store.State()), templateId)
    ensures r.Success? ==> r.message == "Template deleted successfully"
    ensures r.Failure? ==> r.error == "Failed to delete template" && store.State() == old(store.State())
    ensures r.Success? ==>
      store.State() == old(store.State()).(templates := Without(old(store.templates), TemplateKey, templateId))
  {
    var ok := store.DeleteTemplate(templateId, reject);
    r := if ok then Success("Template deleted successfully") else Failure("Failed to delete template");
  }

  /** The name a template created from the designer gets. */
  const NewTemplateName := "Certificate Template"

  /** `saveTemplate`: with a template id, rewrites that template's image and placeholders
      (keeping its name and event); without one, creates a template under the event. The
      placeholder list is stored as its JSON text. */
  method SaveTemplate(store: Store, eventId: Id, imageUrl: string, placeholders: seq<Placeholder>,
                      templateId: Option<Id>, codec: JsonCodec, reject: bool)
    returns (r: ActionResult)
    requires store.Valid()
    modifies store
    ensures store.Valid()
    ensures r.Success? ==> r.message == "Template saved successfully"
    ensures r.Failure? ==> r.error == "Failed to save template" && store.State() == old(store.State())
    ensures Truthy(templateId) ==>
      && (r.Success? <==> !reject && HasKey(old(store.templates), TemplateKey, templateId.value))
      && (r.Success? ==> store.State() == old(store.State()).(
            templates := SetContent(old(store.templates), templateId.value, imageUrl, codec.stringify(placeholders))))
    ensures !Truthy(templateId) ==>
      && (r.Success? <==> !reject && HasKey(old(store.events), EventKey, eventId))
      && (r.Success? ==> store.State() == old(store.State()).(
            templates := old(store.templates) +
              [Template(FreshKey(old(store.templates), TemplateKey), eventId, NewTemplateName, imageUrl,
                        Some(codec.stringify(placeholders)))]))
  {
    var text := codec.stringify(placeholders);
    var ok;
    if Truthy(templateId) {
      ok := store.UpdateTemplate(templateId.value, imageUrl, text, reject);
    } else {
      var t := store.CreateTemplate(eventId, NewTemplateName, imageUrl, Some(text), reject);
      ok := t.Some?;
    }
    r := if ok then Success("Template saved successfully") else Failure("Failed to save template");
  }

  /** An update keeps the template's id, event and name, and stores the new image and text. */
  lemma UpdateKeepsIdentity(templates: seq<Template>, id: Id, imageUrl: string, text: string, i: nat)
    requires i < |templates| && templates[i].id == id
    ensures
      var t := SetContent(templates, id, imageUrl, text)[i];
      && t.id == id && t.eventId == templates[i].eventId && t.name == templates[i].name
      && t.imageUrl == imageUrl && t.placeholders == Some(text)
  {
  }

  /** The signed URLs gathered from the cloud listing: one per file, in order, up to the first
      file whose URL cannot be signed (the failure ends the loop, the URLs so far are kept). */
  function SignedPrefix(files: seq<string>, sign: string -> Option<string>): (r: seq<string>)
    ensures |r| <= |files|
    ensures forall i :: 0 <= i < |r| ==> sign(files[i]) == Some(r[i])
    ensures |r| < |files| ==> sign(files[|r|]).None?
  {
    if files == [] || sign(files[0]).None? then []
    else [sign(files[0]).value] + SignedPrefix(files[1..], sign)
  }

  /** When every file signs, every file contributes its URL. */
  lemma {:induction false} AllSigned(files: seq<string>, sign: string -> Option<string>)
    requires forall i :: 0 <= i < |files| ==> sign(files[i]).Some?
    ensures |SignedPrefix(files, sign)| == |files|
  {
    if files != [] {
      assert forall i :: 0 <= i < |files[1..]| ==> files[1..][i] == files[i + 1];
      AllSigned(files[1..], sign);
    }
  }

  /** `getTemplates`: the local images, then the cloud images. `local` is the read of
      `public/templates`; `cloud` is the bucket listing under `templates/`, `None` when the
      listing fails; `sign` gives a file's signed URL, `None` when signing fails. */
  method GetTemplates(local: Listing, cloud: Option<seq<string>>, sign: string -> Option<string>)
    returns (urls: seq<string>)
    ensures cloud.None? ==> urls == GetTemplateImages(local)
    ensures cloud.Some? ==> urls == GetTemplateImages(local) + SignedPrefix(cloud.value, sign)
  {
    var localImages := GetTemplateImages(local);
    var cloudImages: seq<string> := [];
    if cloud.Some? {
      var files := cloud.value;
      var i := 0;
      while i < |files|
        invariant 0 <= i <= |files|
        invariant SignedPrefix(files, sign) == cloudImages + SignedPrefix(files[i..], sign)
      {
        var url := sign(files[i]);
        if url.None? {
          break;
        }
        assert files[i..][0] == files[i] && files[i..][1..] == files[i + 1..];
        assert SignedPrefix(files[i..], sign) == [url.value] + SignedPrefix(files[i + 1..], sign);
        cloudImages := cloudImages + [url.value];
        i := i + 1;
      }
      if i == |files| {
        assert files[i..] == [];
      }
    }
    urls := localImages + cloudImages;
  }
}
