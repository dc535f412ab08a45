# Certificate issuer — a Dafny model

This project models the core of a web application that issues event certificates. An
administrator creates events, adds participants, and designs certificate templates: a
background image plus a list of positioned *placeholders*, each mapped to a data key such as
`participantName` or `qrCode`. The application then issues certificates to participants who
have none. It can also pre-create unassigned *draft* certificates, possibly under a custom
id, and assign them later. Revoking a certificate deletes it. Anyone can open
`/verify?id=<id>` to see a certificate rendered from its template, with every placeholder
resolved against the participant and the event.

The model has these modules:

- `Placeholders` (placeholders.dfy): the placeholder record, partial updates (`{...p, ...u}`),
  JavaScript `||` fallbacks for optional attributes, and the JSON codec as a parameter.
- `Designer` (designer.dfy): the template editor. `CertificateDesigner` is a class whose
  fields are the editor's state (`placeholders`, `selectedId`, `isPreviewMode`,
  `previewData`). Its methods are the event handlers. Each handler is specified by a pure
  list function (`MoveById`, `PatchById`, `RemoveById`). The canvas drawing (`ItemContent`,
  `ItemFrame`) is a set of functions returning style records. `FontsToLoad` is the
  designer's font-collecting loop.
- `Fonts` (fonts.dfy): the set of font families and the Google Fonts URL.
- `CertificateView` (certificate_view.dfy): the public certificate body. It covers the value
  resolver `getValue`, the scale formula, the layout, the footer, and parity lemmas between
  the designer canvas and the certificate.
- `Store` (store.dfy): the database. `Store` is a class with four tables kept as sequences in
  insertion order. Its invariant `Valid()` requires unique ids, a unique slug, and foreign
  keys that resolve. Every write primitive takes a `reject` flag that stands for a store
  failure.
- `Forms` (forms.dfy): zod's string checks and the per-field error map.
- `Participants`, `Drafts`, `Revoke`, `Templates`, `Events` (participants.dfy, drafts.dfy,
  revoke.dfy, templates.dfy, events.dfy): the server actions, as methods over a `Store`.
- `TemplateImages` (template_images.dfy): the background-image listing filter and the gallery
  caption.
- `VerifyPage` (verify_page.dfy): the verification lookup.
- `Strings`, `Wrappers` (strings.dfy, wrappers.dfy): shared helpers.

Naming: the placeholder field `label` is called `labelText`, because `label` is a Dafny
keyword. The field `type` is called `kind`.

Behaviour of the code worth noting:

- `addParticipant` reads `category` with `formData.get`, which returns `null` for an absent
  field. zod's `.optional()` accepts `undefined` but rejects `null`. So a form with no
  `category` field fails validation ("Expected string, received null"). The `"General"`
  default applies to an empty category.
- `generateCertificates` throws if a certificate write fails part-way. It does not catch the
  error. The certificates already written stay (`Threw(created)`).
- The designer's sample data has a `qrCode` entry that nothing reads: the preview shows the
  sample `certificateLink` for the `qrCode` key (`PreviewValue`).
- An `endDate` that does not parse passes validation. The store then rejects the invalid
  date, and the action reports the database-error message.

## Model

| member | source | states |
|---|---|---|
| Placeholders.Merge | app/components/CertificateDesigner.tsx:225 | `{...p, ...u}`: for each of the seventeen fields, the update's value when it sets the field, else `p`'s; the empty update changes nothing |
| Placeholders.MergeIdempotent | app/components/CertificateDesigner.tsx:225 | spreading the same update twice equals spreading it once |
| Placeholders.NumOr | app/components/CertificateDesigner.tsx:105 | `n \|\| fallback` for a number: the value when present and non-zero, else the fallback |
| Strings.JoinPart | app/verify/certificate-view.tsx:55 | `join`: the i-th part stands in the joined string at its offset |
| Strings.JoinSeparator | app/verify/certificate-view.tsx:55 | `join`: the separator follows every part but the last |
| Strings.JoinLength | app/verify/certificate-view.tsx:55 | `join`: the joined string ends right after the last part |
| Strings.StrOr | app/components/CertificateDesigner.tsx:107 | `s \|\| fallback` for a string: the value when present and non-empty, else the fallback |
| Placeholders.Chain | app/components/CertificateDesigner.tsx:117-119 | `a \|\| b \|\| fallback`: the first truthy of the two, else the fallback |
| Designer.OptionLabel | app/components/CertificateDesigner.tsx:37-44 | finds a label exactly when some option has that value, and the label belongs to such an option |
| Designer.MappingLabel | app/components/CertificateDesigner.tsx:365 | the new label is `{` + the option's label + `}`; always braces-delimited |
| Designer.PreviewValue | app/components/CertificateDesigner.tsx:236-239 | both link keys show the sample link; the other four known keys show their sample; unknown keys show "" |
| Designer.MoveById | app/components/CertificateDesigner.tsx:178-190 | the dragged placeholder moves by exactly the delta; every other placeholder, the order and all other fields are unchanged |
| Designer.MoveUndo | app/components/CertificateDesigner.tsx:178-190 | dragging back by the opposite delta restores the list |
| Designer.MoveTwice | app/components/CertificateDesigner.tsx:178-190 | two drags compose into one drag by the summed delta |
| Designer.PatchById | app/components/CertificateDesigner.tsx:223-226 | the update is merged into the placeholders with the selected id only; length and order kept |
| Designer.PatchTwice | app/components/CertificateDesigner.tsx:223-226 | applying the same update twice is applying it once |
| Designer.RemoveById | app/components/CertificateDesigner.tsx:228-232 | exactly the placeholders with another id survive; a list without the id is unchanged |
| Designer.RemoveAppend | app/components/CertificateDesigner.tsx:230 | removal distributes over concatenation (order preserved) |
| Designer.AddThenRemove | app/components/CertificateDesigner.tsx:228-232 | deleting a just-added placeholder with a new id gives back the previous list |
| Designer.DesignerTextStyle | app/components/CertificateDesigner.tsx:104-115 | canvas text fallbacks: size 16, weight normal, colour #000000, centre, family inherit, width and wrapping only with a truthy width; 4px padding |
| Designer.DesignerPrefixStyle | app/components/CertificateDesigner.tsx:116-121 | prefix attributes fall back to the text's attribute, then to a fixed default |
| Designer.PrefixInheritsOnCanvas | app/components/CertificateDesigner.tsx:116-121 | a prefix without its own colour, weight or family looks like the text it precedes |
| Designer.ItemContent | app/components/CertificateDesigner.tsx:89-127 | QR: code of side `width \|\| 100` in preview (sample URL when the value is empty), icon box otherwise; text: prefix then value, or the label when the value is empty, drawn with exactly `DesignerTextStyle` and `DesignerPrefixStyle`; highlighted only when selected outside preview |
| Designer.ItemFrame | app/components/CertificateDesigner.tsx:78-86 | placed at (x, y); draggable and outlined only outside preview; a 2px border when outlined, else 1px; z-index 10 when selected, else 1 |
| Designer.FontsToLoad | app/components/CertificateDesigner.tsx:158-163 | the loop's Set holds exactly the distinct truthy families in first-seen order, the same list the certificate page requests |
| Designer.FirstWithId | app/components/CertificateDesigner.tsx:234 | `find`: the first placeholder with that id, or none exactly when no placeholder has it |
| Designer.CertificateDesigner.constructor | app/components/CertificateDesigner.tsx:137-147 | initial list `initialPlaceholders \|\| []`, nothing selected, editing mode, default sample data |
| Designer.CertificateDesigner.SelectedItem | app/components/CertificateDesigner.tsx:234 | the selected item is in the list and carries the selected id; none only when nothing matches |
| Designer.CertificateDesigner.Canvas | app/components/CertificateDesigner.tsx:274-283 | one item per placeholder in list order, each drawn with its own selection flag and the preview value of its key |
| Designer.CertificateDesigner.HandleDragEnd | app/components/CertificateDesigner.tsx:178-190 | the list becomes `MoveById` of the old list; selection, mode and sample data unchanged |
| Designer.CertificateDesigner.AddText | app/components/CertificateDesigner.tsx:192-207 | appends the default text placeholder with id `text-<now>` and selects it |
| Designer.CertificateDesigner.AddQR | app/components/CertificateDesigner.tsx:209-221 | appends the default QR placeholder with id `qr-<now>` and selects it |
| Designer.CertificateDesigner.UpdateSelected | app/components/CertificateDesigner.tsx:223-226 | no-op without a (non-empty) selection; otherwise merges into the selected placeholders only |
| Designer.CertificateDesigner.ChangeMapping | app/components/CertificateDesigner.tsx:363-365 | sets key and `{label}` on the selected placeholder through `updateSelected` |
| Designer.CertificateDesigner.DeleteSelected | app/components/CertificateDesigner.tsx:228-232 | no-op without a selection; otherwise removes the selected placeholders and clears the selection |
| Designer.CertificateDesigner.ClickItem | app/components/CertificateDesigner.tsx:279 | selects the item, except in preview mode |
| Designer.CertificateDesigner.SelectFromList | app/components/CertificateDesigner.tsx:342 | selects the listed element |
| Designer.CertificateDesigner.ClickCanvas | app/components/CertificateDesigner.tsx:270 | clears the selection and nothing else |
| Designer.CertificateDesigner.TogglePreview | app/components/CertificateDesigner.tsx:259 | flips the mode and nothing else |
| Designer.CertificateDesigner.EditPreview | app/components/CertificateDesigner.tsx:299-311 | replaces exactly one sample value |
| Designer.CertificateDesigner.Save | app/components/CertificateDesigner.tsx:264 | hands the current list to the save handler |
| Fonts.FamiliesOf | app/verify/certificate-view.tsx:53 | a placeholder contributes exactly its truthy `fontFamily` and `prefixFontFamily`, never "" |
| Fonts.AllFamilies | app/verify/certificate-view.tsx:53 | a family is collected exactly when some placeholder names it |
| Fonts.Add | app/components/CertificateDesigner.tsx:161-162 | `Set.add` keeps elements distinct and adds exactly the new element |
| Fonts.Distinct | app/verify/certificate-view.tsx:53 | `new Set`: no duplicates and exactly the same elements |
| Fonts.DistinctAppend | app/components/CertificateDesigner.tsx:159-163 | adding elements one by one to a Set builds the Set of the concatenation |
| Fonts.AddFamiliesOf | app/components/CertificateDesigner.tsx:161-162 | one loop step adds `fontFamily` then `prefixFontFamily`, each only when truthy |
| Fonts.FontsUrl | app/verify/certificate-view.tsx:54-55 | null exactly for no families; otherwise the fixed prefix and suffix around the encoded families joined by `&family=`; a single family gives `prefix + family-with-plus + suffix` |
| Fonts.FontsUrlFamily | app/verify/certificate-view.tsx:55 | the i-th family, spaces replaced by `+`, stands in the URL at its offset, the first right after the prefix |
| Fonts.FontsUrlSeparator | app/verify/certificate-view.tsx:55 | between the i-th and the next family the URL holds exactly `&family=` |
| Fonts.FontsUrlLength | app/verify/certificate-view.tsx:55 | the URL ends with `&display=swap` right after the last family, so the three lemmas fix every character |
| Fonts.Encoded | app/verify/certificate-view.tsx:55 | each family has its spaces replaced by `+` |
| Fonts.NoFamilies | app/verify/certificate-view.tsx:53-54 | the collected list is empty exactly when no placeholder names a family |
| Fonts.GoogleFontsUrl | app/verify/certificate-view.tsx:52-61 | null (so no stylesheet link) exactly when no placeholder names a family; otherwise the URL of the distinct families |
| CertificateView.CertificateUrl | app/verify/certificate-view.tsx:30 | `<app url or http://localhost:3000>/verify?id=<id>` |
| CertificateView.DateValue | app/verify/certificate-view.tsx:37-45 | "" without an event; the start date; `start - end` when there is an end date |
| CertificateView.GetValue | app/verify/certificate-view.tsx:32-50 | each known key resolves to its participant, event, date or link value (empty when missing); unknown keys give "" |
| CertificateView.LinkKeysAgree | app/verify/certificate-view.tsx:36-46 | `certificateLink` and `qrCode` resolve to the same URL, which ends with the certificate id |
| CertificateView.ResolvedNonEmpty | app/verify/certificate-view.tsx:32-50 | a known key resolves non-empty exactly when its field is non-empty; the link never is empty |
| CertificateView.PreviewMatchesResolver | app/components/CertificateDesigner.tsx:236-239 | the designer's preview lookup fed resolved values agrees with the certificate's resolver on every key |
| CertificateView.ContainerWidth | app/verify/certificate-view.tsx:18 | the parent width when non-zero, else the window width |
| CertificateView.Scale | app/verify/certificate-view.tsx:19-21 | always in (0, 1]; 1 from 832 up; `(W - 32) / 800` between 32 and 832; 1 at or below 32 |
| CertificateView.AfterResize | app/verify/certificate-view.tsx:16-22 | recomputed from the container width only when mounted |
| CertificateView.ScaledCanvasFits | app/verify/certificate-view.tsx:19-21 | the scaled 800-wide canvas never grows and fits the container minus margin unless the scale is 1 |
| CertificateView.ViewTextStyle | app/verify/certificate-view.tsx:97-107 | certificate text fallbacks: as on the canvas but family `serif` and no padding |
| CertificateView.ViewPrefixStyle | app/verify/certificate-view.tsx:109-114 | certificate prefix fallbacks: prefix attribute, then text attribute, then default |
| CertificateView.Layout | app/verify/certificate-view.tsx:77-118 | placed at (x, y) with the resolved value; QR square of side `width \|\| 100`; text with its prefix, drawn with exactly `ViewTextStyle` and `ViewPrefixStyle` |
| CertificateView.Render | app/verify/certificate-view.tsx:77-120 | one element per placeholder in list order |
| CertificateView.FooterText | app/verify/certificate-view.tsx:133-138 | "Unassigned Draft Certificate" without a participant, else "Issued to <name> for <event>" |
| CertificateView.TextStyleParity | app/verify/certificate-view.tsx:97-107 | canvas and certificate text styles agree in size, weight, colour, alignment, width and wrapping; the main family agrees exactly when the placeholder names one; the canvas adds 4px padding |
| CertificateView.CanvasTextOffset | app/components/CertificateDesigner.tsx:80-84 | canvas item and certificate text share (x, y), but the canvas's border plus padding put the text 5px further in (6px when selected while editing) |
| CertificateView.PrefixStyleParity | app/verify/certificate-view.tsx:109-114 | prefix styles are identical on canvas and certificate |
| CertificateView.QrParity | app/verify/certificate-view.tsx:80-90 | a QR code has the same size and value in preview and on the certificate when the value is non-empty |
| CertificateView.TextParity | app/verify/certificate-view.tsx:109-117 | preview and certificate text agree exactly when the value is non-empty or the label is empty |
| Store.TemplatesOf | app/actions/participants.ts:44 | exactly the event's templates, in table order |
| Store.TemplatesOfAppend | app/actions/participants.ts:44 | the event's templates of two tables in sequence are those of the first, then those of the second (table order kept) |
| Store.TemplatesOfFirst | app/actions/participants.ts:51-53 | `event.templates[0]` is the earliest template of the event in the table |
| Store.Eligible | app/actions/participants.ts:69 | exactly the event's participants without a certificate; empty exactly when all have one |
| Store.EligibleAmongAppend | app/actions/participants.ts:69 | `filter` keeps table order: filtering two lists in sequence is filtering each |
| Store.EligibleUnique | app/actions/participants.ts:69 | in a consistent database no participant is listed twice |
| Store.BindParticipant | app/actions/drafts.ts:44-49 | only the certificate with that id gets the participant; all others unchanged |
| Store.SetContent | app/actions/templates.ts:21-28 | only the template with that id gets the new image and placeholders |
| Store.Without | app/actions/revoke-certificate.ts:8-10 | keeps exactly the rows whose id differs, never more rows than before |
| Store.WithoutDropsKey | app/actions/revoke-certificate.ts:8-10 | afterwards no row has that id |
| Store.WithoutMissing | app/actions/revoke-certificate.ts:8-10 | a missing id changes nothing |
| Store.WithoutAppend | app/actions/revoke-certificate.ts:8-10 | deleting by id keeps the order of the remaining rows |
| Store.WithoutUnique | app/actions/revoke-certificate.ts:8-10 | deleting by id keeps ids unique |
| Store.WithoutCount | app/actions/revoke-certificate.ts:8-10 | deleting an existing id removes exactly one row |
| Store.RemoveTemplateConsistent | app/actions/templates.ts:11 | deleting a template that no certificate references keeps every foreign key resolving |
| Store.RemoveCertificateConsistent | app/actions/revoke-certificate.ts:8-10 | deleting a certificate keeps the database consistent |
| Store.Store.CreateEvent | app/actions/events.ts:35-42 | refused for a taken slug; otherwise appends the event with a fresh id; invariant kept |
| Store.Store.CreateParticipant | app/actions/participants.ts:25-32 | refused for a missing event; otherwise appends the participant with a fresh id |
| Store.Store.CreateTemplate | app/actions/templates.ts:30-37 | refused for a missing event; otherwise appends the template with a fresh id |
| Store.Store.UpdateTemplate | app/actions/templates.ts:21-28 | refused for a missing template; otherwise `SetContent` |
| Store.Store.DeleteTemplate | app/actions/templates.ts:11 | refused for a missing or still-referenced template; otherwise removes it |
| Store.Store.CreateCertificate | app/actions/participants.ts:77-82 | refused for a taken custom id or a missing template or participant; otherwise appends with the custom or a fresh id |
| Store.Store.BindCertificate | app/actions/drafts.ts:44-49 | refused for a missing certificate or participant; otherwise `BindParticipant` |
| Store.Store.DeleteCertificate | app/actions/revoke-certificate.ts:8-10 | refused for a missing certificate; otherwise removes it, leaving one row fewer and none with that id |
| Forms.StringIssues | app/actions/participants.ts:8-9 | `z.string()` plus one check: no issue exactly for a string passing the check; null gets the type message |
| Forms.OptionalStringIssues | app/actions/participants.ts:10 | `.optional()` on a form value: only null fails, with the type message |
| Forms.Report | app/actions/participants.ts:21 | the error map gains the field exactly when it has issues |
| Participants.ValidateParticipant | app/actions/participants.ts:7-22 | passes exactly for a non-empty name, an accepted e-mail and a present category; otherwise each failing field and only those are reported, with the schema's messages, or the type message for an absent field |
| Participants.StoredCategory | app/actions/participants.ts:30 | the category when non-empty, else "General"; never empty |
| Participants.AddParticipant | app/actions/participants.ts:13-39 | validation errors create nothing; a refused write is reported, changes nothing; success appends exactly the validated participant |
| Participants.ChosenTemplate | app/actions/participants.ts:52-58 | with an id: the event's template with that id, if any; without: the event's first template |
| Participants.NextCertificate | app/actions/participants.ts:77-82 | the written certificate binds the participant and template and has an unused id |
| Participants.Issued | app/actions/participants.ts:75-84 | one certificate per participant |
| Participants.IssuedBinds | app/actions/participants.ts:77-82 | the i-th certificate written binds the i-th eligible participant and the chosen template |
| Participants.IssuedSnoc | app/actions/participants.ts:76-84 | one more loop iteration appends one certificate |
| Participants.GenerateCertificates | app/actions/participants.ts:41-88 | the four early exits happen exactly in their cases and change nothing; on completion one certificate per eligible participant is appended and the count equals their number |
| Participants.IssueAll | app/actions/participants.ts:75-84 | the loop writes the certificates in order and stops exactly at the first refused write |
| Participants.EligibleRegistered | app/actions/participants.ts:69 | every participant waiting for a certificate is a row of the participants table |
| Participants.GenerationCoversEveryone | app/actions/participants.ts:69-84 | after a complete run no participant of the event is left without a certificate |
| Drafts.CreateDraft | app/actions/drafts.ts:7-30 | a taken non-empty custom id is refused with nothing changed; otherwise one draft with the custom or a fresh id, the template, and no participant |
| Drafts.AssignDraft | app/actions/drafts.ts:32-53 | creates the participant (category default "General"), then binds only that certificate; a refused second write leaves the participant |
| Drafts.AssignedDraftIsBound | app/actions/drafts.ts:44-49 | after assignment the new participant has a certificate and no other certificate changed |
| Revoke.RevokeCertificate | app/actions/revoke-certificate.ts:6-18 | success exactly when the certificate exists; it alone is removed; a failure changes nothing |
| Templates.DeleteTemplate | app/actions/templates.ts:9-17 | removes only that template on success; a failure reports the error and changes nothing |
| Templates.SaveTemplate | app/actions/templates.ts:19-44 | with an id updates only that template's image and JSON text; without creates "Certificate Template" under the event |
| Templates.UpdateKeepsIdentity | app/actions/templates.ts:21-28 | an update keeps the template's id, event and name |
| Templates.SignedPrefix | app/actions/templates.ts:60-72 | the signed URLs in file order, stopping at the first file that cannot be signed |
| Templates.AllSigned | app/actions/templates.ts:62-68 | when every file signs, every file contributes a URL |
| Templates.GetTemplates | app/actions/templates.ts:46-75 | local images followed by the signed cloud URLs; a failed cloud listing adds nothing |
| TemplateImages.Extension | app/dashboard/templates/page.tsx:8 | the text after the last dot, which contains no dot |
| TemplateImages.ExtensionCharacterisation | app/actions/templates.ts:53 | the regular expression keeps a name exactly when its text after the last dot, lower-cased, is png, jpg, jpeg or svg |
| TemplateImages.LocalTemplateUrls | app/dashboard/templates/page.tsx:8 | a URL is listed exactly when it is `/templates/` + a kept file name |
| TemplateImages.LocalTemplateUrlsAppend | app/dashboard/templates/page.tsx:8 | listing order follows directory order |
| TemplateImages.GetTemplateImages | app/dashboard/templates/page.tsx:4-12 | a failed directory read yields the empty list |
| TemplateImages.Caption | app/dashboard/templates/page.tsx:31 | the caption contains no `/` |
| TemplateImages.CaptionIsFileName | app/dashboard/templates/page.tsx:31 | the caption of a listed image is its file name |
| Events.EndDateField | app/actions/events.ts:22 | an absent or empty end date becomes undefined |
| Events.ValidateEvent | app/actions/events.ts:8-30 | passes exactly for name and slug of at least 3 characters and a parsable start date; each failing field and only those are reported with the schema's message, or the type message for an absent field |
| Events.CreateEvent | app/actions/events.ts:17-51 | validation errors, a taken slug, an unparsable end date or a store failure write nothing; success appends the event (end date null when absent) and redirects to /dashboard |
| VerifyPage.DecodePlaceholders | app/verify/page.tsx:28 | null or empty text decodes to `[]`; otherwise the parse result |
| VerifyPage.ShownEvent | app/verify/page.tsx:29 | the participant's event when assigned, else the template's |
| VerifyPage.Verify | app/verify/page.tsx:9-40 | invalid id before any lookup; not found exactly for an unknown id; an error only when the found template's text does not decode; otherwise the certificate with its template, participant, event and decoded list |
| VerifyPage.DecodedIsShown | app/verify/page.tsx:28-38 | a found certificate whose template text decodes is shown with the decoded list |
| VerifyPage.ViewContextOf | app/verify/page.tsx:31-38 | the view gets the page's certificate id, participant and event |
| VerifyPage.RevokedIsNotFound | app/verify/page.tsx:15-25 | after a revocation the same id takes the not-found path |
| VerifyPage.SavedListIsShown | app/verify/page.tsx:28 | a template saved as the JSON of a list is shown with exactly that list |

## Left out

- JSON encoding: `JSON.stringify`/`JSON.parse` are the parameter `JsonCodec`. Its round-trip
  law `Lawful` is a hypothesis of the lemmas that use it, not a fact the model proves.
- Date handling: `toLocaleDateString` and `new Date(text)` are parameters (`formatDate`,
  `parseDate`). Dates are integers.
- E-mail validation: zod's `.email()` check is the parameter `isEmail`.
- Id generation: `cuid()` and `Date.now()` are not modelled. The store picks an id longer
  than every existing key (`FreshKey`), and the editor takes `now` as an argument.
- `issuedAt` timestamps are not part of the model.
- I/O: directory reads, the cloud bucket listing and URL signing are inputs (`Listing`,
  `cloud`, `sign`).
- Store failures are a `reject` flag per write (`failAt` for the generation loop). The model
  assumes foreign keys default to Restrict: a template still used by a certificate cannot be
  deleted. Event deletion and cascades are not modelled.
- Side effects: `revalidatePath`, `redirect` (beyond the `/dashboard` target),
  `console.error`, and font `<link>` insertion into `document.head` are left out.
- Rendering: React, JSX, CSS strings, drag-and-drop sensors, QR encoding, PNG/PDF export and
  printing are left out. Styles are records; `ItemContent` and `Layout` stand for the
  rendered markup.
- Authentication and the admin check (lib/firebase-admin.ts and the login and dashboard
  layout pages) are not part of this model.
- Concurrency between requests is not modelled. Each action runs alone against the store.
- Floating point: coordinates, sizes and the scale are `real`, with no rounding.
- Strings: lengths count characters, not UTF-16 code units as zod does. JavaScript's
  prototype keys (`previewData['constructor']`) are not modelled in `PreviewValue`.
- Designer.CertificateDesigner.HandleDragEnd: has no preview-mode guard, like the source.
  The drag library disables dragging in preview mode; the model does not capture that.
- Designer.CertificateDesigner.SelectFromList: models both the row click and its edit button
  (app/components/CertificateDesigner.tsx:342 and 350) as the same selection.
- Participants.GenerateCertificates: participants are visited in table order; the ORM's
  include order is not specified.
- VerifyPage.Verify: requires a consistent database. The source relies on the foreign key
  to the template.
