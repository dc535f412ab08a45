/** The template placeholder editor (`CertificateDesigner` in
    app/components/CertificateDesigner.tsx): a list of placeholders, a selection, a preview
    toggle and sample preview data, changed only by the editor's event handlers. */
module Designer {
  import opened Wrappers
  import opened Strings
  import opened Placeholders
  import opened Fonts

  /** Sample values shown in preview mode. The editor's state holds a `qrCode` entry, but
      nothing reads it: the preview shows `certificateLink` for the `qrCode` key too. */
  datatype PreviewData = PreviewData(
    participantName: string,
    eventName: string,
    date: string,
    category: string,
    certificateLink: string,
    qrCode: string)

  /** The four preview fields the preview panel lets the user edit. */
  datatype PreviewField = ParticipantNameField | EventNameField | DateField | CategoryField

  /** The initial preview data; `today` is `new Date().toLocaleDateString()`. */
  function DefaultPreviewData(today: string): PreviewData
  {
    PreviewData("John Doe", "Annual Tech Summit 2024", today, "Excellence",
                "https://example.com/verify/12345", "https://example.com/verify/12345")
  }

  /** `VARIABLE_OPTIONS`: (label, value) pairs of the data-mapping menu. */
  const VariableOptions: seq<(string, string)> := [
    ("Participant Name", "participantName"),
    ("Event Name", "eventName"),
    ("Date", "date"),
    ("Category", "category"),
    ("Certificate Link", "certificateLink"),
    ("QR Code (Cert Link)", "qrCode")]

  /** `VARIABLE_OPTIONS.find(o => o.value === value)?.label`. */
  function OptionLabel(value: string): (r: Option<string>)
    ensures r.Some? <==> exists i :: 0 <= i < |VariableOptions| && VariableOptions[i].1 == value
    ensures r.Some? ==> (exists i :: 0 <= i < |VariableOptions| &&
                          VariableOptions[i].1 == value && VariableOptions[i].0 == r.value)
  {
    FirstLabel(VariableOptions, value)
  }

  function FirstLabel(options: seq<(string, string)>, value: string): (r: Option<string>)
    ensures r.Some? <==> exists i :: 0 <= i < |options| && options[i].1 == value
    ensures r.Some? ==> (exists i :: 0 <= i < |options| &&
                          options[i].1 == value && options[i].0 == r.value)
  {
    if options == [] then None
    else if options[0].1 == value then Some(options[0].0)
    else
      var r := FirstLabel(options[1..], value);
      assert forall i :: 0 <= i < |options| - 1 ==> options[1..][i] == options[i + 1];
      r
  }

  /** The label written when the data mapping changes: `{` + option label + `}`; an unknown
      value interpolates JavaScript's `undefined`. */
  function MappingLabel(value: string): (r: string)
    ensures |r| >= 2 && r[0] == '{' && r[|r| - 1] == '}'
    ensures OptionLabel(value).Some? ==> r == "{" + OptionLabel(value).value + "}"
  {
    "{" + OptionLabel(value).GetOr("undefined") + "}"
  }

  /** `getPreviewValue(key)`: both link keys show the sample certificate link; the other
      known keys show their sample entry; any other key shows nothing. */
  function PreviewValue(d: PreviewData, key: string): (r: string)
    ensures key == "qrCode" || key == "certificateLink" ==> r == d.certificateLink
    ensures key == "participantName" ==> r == d.participantName
    ensures key == "eventName" ==> r == d.eventName
    ensures key == "date" ==> r == d.date
    ensures key == "category" ==> r == d.category
    ensures key !in {"qrCode", "certificateLink", "participantName", "eventName", "date", "category"}
      ==> r == ""
  {
    if key == "qrCode" || key == "certificateLink" then d.certificateLink
    else if key == "participantName" then d.participantName
    else if key == "eventName" then d.eventName
    else if key == "date" then d.date
    else if key == "category" then d.category
    else ""
  }

  // ---------------------------------------------------------------------------------------
  // The new lists the handlers build with map / filter / spread.

  /** `handleDragEnd`'s map: every placeholder carrying `id` moves by exactly (dx, dy); every
      other one, the length, the order and every other field stay as they were. */
  function MoveById(ps: seq<Placeholder>, id: string, dx: real, dy: real): (r: seq<Placeholder>)
    ensures |r| == |ps|
    ensures forall i :: 0 <= i < |ps| && ps[i].id != id ==> r[i] == ps[i]
    ensures forall i :: 0 <= i < |ps| && ps[i].id == id ==>
      r[i].x == ps[i].x + dx && r[i].y == ps[i].y + dy &&
      r[i].(x := ps[i].x, y := ps[i].y) == ps[i]
  {
    if ps == [] then []
    else
      var p := ps[0];
      [if p.id == id then p.(x := p.x + dx, y := p.y + dy) else p] + MoveById(ps[1..], id, dx, dy)
  }

  /** Dragging back by the opposite delta restores the list. */
  lemma MoveUndo(ps: seq<Placeholder>, id: string, dx: real, dy: real)
    ensures MoveById(MoveById(ps, id, dx, dy), id, -dx, -dy) == ps
  {
    var r := MoveById(MoveById(ps, id, dx, dy), id, -dx, -dy);
    assert forall i :: 0 <= i < |ps| ==> r[i] == ps[i];
  }

  /** Two drags of the same placeholder add up to one drag by the summed delta. */
  lemma MoveTwice(ps: seq<Placeholder>, id: string, dx1: real, dy1: real, dx2: real, dy2: real)
    ensures MoveById(MoveById(ps, id, dx1, dy1), id, dx2, dy2) == MoveById(ps, id, dx1 + dx2, dy1 + dy2)
  {
    var r := MoveById(MoveById(ps, id, dx1, dy1), id, dx2, dy2);
    var s := MoveById(ps, id, dx1 + dx2, dy1 + dy2);
    assert forall i :: 0 <= i < |ps| ==> r[i] == s[i];
  }

  /** `updateSelected`'s map: the update is merged into every placeholder carrying `id`; every
      other one, the length and the order stay as they were. */
  function PatchById(ps: seq<Placeholder>, id: string, u: Patch): (r: seq<Placeholder>)
    ensures |r| == |ps|
    ensures forall i :: 0 <= i < |ps| && ps[i].id != id ==> r[i] == ps[i]
    ensures forall i :: 0 <= i < |ps| && ps[i].id == id ==> r[i] == Merge(ps[i], u)
  {
    if ps == [] then []
    else [if ps[0].id == id then Merge(ps[0], u) else ps[0]] + PatchById(ps[1..], id, u)
  }

  /** Applying the same update twice is applying it once (even an update of the id itself). */
  lemma PatchTwice(ps: seq<Placeholder>, id: string, u: Patch)
    ensures PatchById(PatchById(ps, id, u), id, u) == PatchById(ps, id, u)
  {
    var once := PatchById(ps, id, u);
    var twice := PatchById(once, id, u);
    forall i | 0 <= i < |ps| ensures twice[i] == once[i] {
      if ps[i].id == id {
        MergeIdempotent(ps[i], u);
      }
    }
  }

  /** `deleteSelected`'s filter: exactly the placeholders not carrying `id` survive, in
      their original order. */
  function RemoveById(ps: seq<Placeholder>, id: string): (r: seq<Placeholder>)
    ensures |r| <= |ps|
    ensures forall p :: p in r <==> p in ps && p.id != id
    ensures (forall i :: 0 <= i < |ps| ==> ps[i].id != id) ==> r == ps
  {
    if ps == [] then []
    else (if ps[0].id == id then [] else [ps[0]]) + RemoveById(ps[1..], id)
  }

  /** Removing from a concatenation removes from each part. */
  lemma {:induction false} RemoveAppend(ps: seq<Placeholder>, qs: seq<Placeholder>, id: string)
    ensures RemoveById(ps + qs, id) == RemoveById(ps, id) + RemoveById(qs, id)
  {
    if ps == [] {
      assert ps + qs == qs;
    } else {
      assert (ps + qs)[1..] == ps[1..] + qs;
      RemoveAppend(ps[1..], qs, id);
    }
  }

  // ---------------------------------------------------------------------------------------
  // The placeholders the toolbar adds.

  /** The text placeholder `addText` appends. */
  function NewText(id: string): Placeholder
  {
    Placeholder(id, Text, "{New Text}", "participantName", 50.0, 50.0, Some(24.0), Some("bold"),
                Some("#000000"), None, None, Some("Roboto"), None, None, None, None, None)
  }

  /** The QR placeholder `addQR` appends. */
  function NewQr(id: string): Placeholder
  {
    Placeholder(id, Qr, "QR Code", "qrCode", 100.0, 100.0, None, None, None, None, Some(100.0),
                None, None, None, None, None, None)
  }

  /** The id `${prefix}-${Date.now()}`. */
  function TimestampId(prefix: string, now: nat): string
  {
    prefix + "-" + Decimal(now)
  }

  /** Deleting a just-added placeholder whose id was new gives back the old list. */
  lemma AddThenRemove(ps: seq<Placeholder>, q: Placeholder)
    requires forall i :: 0 <= i < |ps| ==> ps[i].id != q.id
    ensures RemoveById(ps + [q], q.id) == ps
  {
    assert RemoveById([q], q.id) == [];
    RemoveAppend(ps, [q], q.id);
  }

  // ---------------------------------------------------------------------------------------
  // How a placeholder is drawn on the design canvas (`DraggableItem`).

  /** Position and chrome of an item on the canvas; `borderWidth` is the width in pixels of
      its border (solid blue when `outlined`, dashed transparent otherwise). */
  datatype Frame = Frame(left: real, top: real, draggable: bool, outlined: bool, borderWidth: real, zIndex: int)

  /** What an item shows: a QR code encoding `value`, a QR icon box, or a styled label. */
  datatype Content =
    | QrCode(value: string, size: real)
    | QrIcon(size: real)
    | Label(style: TextStyle, highlighted: bool, prefixStyle: PrefixStyle, prefix: string, text: string)

  /** The canvas text style of a text placeholder. */
  function DesignerTextStyle(p: Placeholder): (r: TextStyle)
    ensures r.fontSize == NumOr(p.fontSize, 16.0)
    ensures r.fontWeight == StrOr(p.fontWeight, "normal")
    ensures r.color == StrOr(p.color, "#000000")
    ensures r.width.Some? <==> TruthyNum(p.width)
    ensures r.wraps <==> TruthyNum(p.width)
    ensures r.textAlign == p.textAlign.GetOr(Center)
    ensures r.fontFamily == StrOr(p.fontFamily, "inherit")
    ensures r.padding == 4.0
  {
    TextStyle(NumOr(p.fontSize, 16.0), StrOr(p.fontWeight, "normal"), StrOr(p.color, "#000000"),
              if TruthyNum(p.width) then Some(p.width.value) else None,
              p.textAlign.GetOr(Center), StrOr(p.fontFamily, "inherit"), TruthyNum(p.width), 4.0)
  }

  /** The canvas style of the prefix span: each attribute falls back to the main text's own
      attribute, then to a fixed default. */
  function DesignerPrefixStyle(p: Placeholder): (r: PrefixStyle)
    ensures r.color == Chain(p.prefixColor, p.color, "#000000")
    ensures r.fontWeight == Chain(p.prefixFontWeight, p.fontWeight, "normal")
    ensures r.fontFamily == Chain(p.prefixFontFamily, p.fontFamily, "inherit")
    ensures r.fontSize.Some? <==> TruthyNum(p.prefixFontSize)
  {
    PrefixStyle(Chain(p.prefixColor, p.color, "#000000"),
                Chain(p.prefixFontWeight, p.fontWeight, "normal"),
                Chain(p.prefixFontFamily, p.fontFamily, "inherit"),
                if TruthyNum(p.prefixFontSize) then Some(p.prefixFontSize.value) else None)
  }

  /** A prefix with no style of its own looks like the text it precedes. */
  lemma PrefixInheritsOnCanvas(p: Placeholder)
    ensures !Truthy(p.prefixColor) ==> DesignerPrefixStyle(p).color == DesignerTextStyle(p).color
    ensures !Truthy(p.prefixFontWeight) ==>
      DesignerPrefixStyle(p).fontWeight == DesignerTextStyle(p).fontWeight
    ensures !Truthy(p.prefixFontFamily) ==>
      DesignerPrefixStyle(p).fontFamily == DesignerTextStyle(p).fontFamily
  {
  }

  /** `renderContent()`: a QR placeholder is a QR code of side `width || 100` in preview
      (encoding the preview value, or a sample URL when that is empty) and an icon box of the
      same side otherwise; a text placeholder shows its prefix and then the preview value, or
      its label when the preview value is empty. */
  function ItemContent(p: Placeholder, isSelected: bool, isPreviewMode: bool, previewValue: string)
    : (r: Content)
    ensures p.kind == Qr ==> r.QrCode? == isPreviewMode && !r.Label?
    ensures p.kind == Qr && isPreviewMode ==>
      r.size == NumOr(p.width, 100.0) &&
      r.value == (if previewValue != "" then previewValue else "https://example.com")
    ensures p.kind == Qr && !isPreviewMode ==> r.size == NumOr(p.width, 100.0)
    ensures p.kind == Text ==> r.Label? && r.style == DesignerTextStyle(p) && r.prefixStyle == DesignerPrefixStyle(p)
    ensures p.kind == Text ==> (r.Label? && r.prefix == StrOr(p.prefix, "") &&
                                r.text == (if previewValue != "" then previewValue else p.labelText) &&
                                r.highlighted == (isSelected && !isPreviewMode))
  {
    match p.kind
    case Qr =>
      if isPreviewMode then
        QrCode(if previewValue != "" then previewValue else "https://example.com", NumOr(p.width, 100.0))
      else QrIcon(NumOr(p.width, 100.0))
    case Text =>
      Label(DesignerTextStyle(p), isSelected && !isPreviewMode, DesignerPrefixStyle(p),
            StrOr(p.prefix, ""), if previewValue != "" then previewValue else p.labelText)
  }

  /** `finalStyle`: placed at (x, y), draggable and outlined only outside preview, raised
      when selected. */
  function ItemFrame(p: Placeholder, isSelected: bool, isPreviewMode: bool): (r: Frame)
    ensures r.left == p.x && r.top == p.y
    ensures r.draggable == !isPreviewMode
    ensures r.outlined == (isSelected && !isPreviewMode)
    ensures r.borderWidth == if r.outlined then 2.0 else 1.0
    ensures r.zIndex == if isSelected then 10 else 1
  {
    var outlined := isSelected && !isPreviewMode;
    Frame(p.x, p.y, !isPreviewMode, outlined, if outlined then 2.0 else 1.0, if isSelected then 10 else 1)
  }

  /** Is `p` the selected placeholder (`p.id === selectedId`)? */
  predicate IsSelected(p: Placeholder, selectedId: Option<string>)
  {
    selectedId == Some(p.id)
  }

  /** The designer's font loader: a `forEach` over the placeholders adding each truthy
      `fontFamily` and then each truthy `prefixFontFamily` to a `Set`. It collects exactly the
      families the certificate page asks Google Fonts for, in the same order. */
  method FontsToLoad(ps: seq<Placeholder>) returns (fonts: seq<string>)
    ensures fonts == Distinct(AllFamilies(ps))
  {
    fonts := [];
    for i := 0 to |ps|
      invariant fonts == Distinct(AllFamilies(ps[..i]))
    {
      var p := ps[i];
      AllFamiliesStep(ps, i);
      DistinctAppend(AllFamilies(ps[..i]), FamiliesOf(p));
      AddFamiliesOf(fonts, p);
      if Truthy(p.fontFamily) {
        fonts := Add(fonts, p.fontFamily.value);
      }
      if Truthy(p.prefixFontFamily) {
        fonts := Add(fonts, p.prefixFontFamily.value);
      }
    }
    assert ps[..|ps|] == ps;
  }

  /** The editor's state. */
  class CertificateDesigner {
    var placeholders: seq<Placeholder>
    var selectedId: Option<string>
    var isPreviewMode: bool
    var previewData: PreviewData

    /** `initialPlaceholders || []`, nothing selected, editing mode, default preview data. */
    constructor (initialPlaceholders: Option<seq<Placeholder>>, today: string)
      ensures placeholders == initialPlaceholders.GetOr([])
      ensures selectedId == None && !isPreviewMode
      ensures previewData == DefaultPreviewData(today)
    {
      placeholders := initialPlaceholders.GetOr([]);
      selectedId := None;
      isPreviewMode := false;
      previewData := DefaultPreviewData(today);
    }

    /** `selectedItem`: the first placeholder carrying the selected id, if any. */
    function SelectedItem(): (r: Option<Placeholder>)
      reads this
      ensures r.Some? ==> r.value in placeholders && selectedId == Some(r.value.id)
      ensures r.None? ==> (selectedId.None? ||
                           forall i :: 0 <= i < |placeholders| ==> placeholders[i].id != selectedId.value)
    {
      if selectedId.None? then None else FirstWithId(placeholders, selectedId.value)
    }

    /** `getPreviewValue(key)` against the current preview data. */
    function PreviewValueOf(key: string): string
      reads this
    {
      PreviewValue(previewData, key)
    }

    /** The canvas: one item per placeholder, in list order, each showing the preview value
        of its own key. */
    function Canvas(): (r: seq<(Frame, Content)>)
      reads this
      ensures |r| == |placeholders|
      ensures forall i :: 0 <= i < |placeholders| ==>
        var p := placeholders[i];
        r[i] == (ItemFrame(p, IsSelected(p, selectedId), isPreviewMode),
                 ItemContent(p, IsSelected(p, selectedId), isPreviewMode, PreviewValue(previewData, p.key)))
    {
      seq(|placeholders|, i requires 0 <= i < |placeholders| reads this =>
        var p := placeholders[i];
        (ItemFrame(p, IsSelected(p, selectedId), isPreviewMode),
         ItemContent(p, IsSelected(p, selectedId), isPreviewMode, PreviewValue(previewData, p.key))))
    }

    /** `handleDragEnd`: moves the dragged placeholder; nothing else changes. */
    method HandleDragEnd(activeId: string, dx: real, dy: real)
      modifies this
      ensures placeholders == MoveById(old(placeholders), activeId, dx, dy)
      ensures selectedId == old(selectedId) && isPreviewMode == old(isPreviewMode)
      ensures previewData == old(previewData)
    {
      placeholders := MoveById(placeholders, activeId, dx, dy);
    }

    /** `addText`: appends one default text placeholder with id `text-<now>` and selects it. */
    method AddText(now: nat)
      modifies this
      ensures placeholders == old(placeholders) + [NewText(TimestampId("text", now))]
      ensures selectedId == Some(TimestampId("text", now))
      ensures isPreviewMode == old(isPreviewMode) && previewData == old(previewData)
    {
      var id := TimestampId("text", now);
      placeholders := placeholders + [NewText(id)];
      selectedId := Some(id);
    }

    /** `addQR`: appends one default QR placeholder with id `qr-<now>` and selects it. */
    method AddQR(now: nat)
      modifies this
      ensures placeholders == old(placeholders) + [NewQr(TimestampId("qr", now))]
      ensures selectedId == Some(TimestampId("qr", now))
      ensures isPreviewMode == old(isPreviewMode) && previewData == old(previewData)
    {
      var id := TimestampId("qr", now);
      placeholders := placeholders + [NewQr(id)];
      selectedId := Some(id);
    }

    /** `updateSelected(u)`: a no-op when nothing (or the empty id) is selected; otherwise
        merges `u` into the placeholders carrying the selected id. */
    method UpdateSelected(u: Patch)
      modifies this
      ensures !Truthy(old(selectedId)) ==> placeholders == old(placeholders)
      ensures Truthy(old(selectedId)) ==>
        placeholders == PatchById(old(placeholders), old(selectedId).value, u)
      ensures selectedId == old(selectedId) && isPreviewMode == old(isPreviewMode)
      ensures previewData == old(previewData)
    {
      if !Truthy(selectedId) {
        return;
      }
      placeholders := PatchById(placeholders, selectedId.value, u);
    }

    /** The data-mapping menu: `updateSelected({ key, label: '{<option label>}' })`. */
    method ChangeMapping(value: string)
      modifies this
      ensures !Truthy(old(selectedId)) ==> placeholders == old(placeholders)
      ensures Truthy(old(selectedId)) ==>
        placeholders == PatchById(old(placeholders), old(selectedId).value,
                                  KeyAndLabel(value, MappingLabel(value)))
      ensures selectedId == old(selectedId) && isPreviewMode == old(isPreviewMode)
      ensures previewData == old(previewData)
    {
      UpdateSelected(KeyAndLabel(value, MappingLabel(value)));
    }

    /** `deleteSelected`: a no-op when nothing is selected; otherwise removes every
        placeholder carrying the selected id and clears the selection. */
    method DeleteSelected()
      modifies this
      ensures !Truthy(old(selectedId)) ==>
        placeholders == old(placeholders) && selectedId == old(selectedId)
      ensures Truthy(old(selectedId)) ==>
        placeholders == RemoveById(old(placeholders), old(selectedId).value) && selectedId == None
      ensures isPreviewMode == old(isPreviewMode) && previewData == old(previewData)
    {
      if !Truthy(selectedId) {
        return;
      }
      placeholders := RemoveById(placeholders, selectedId.value);
      selectedId := None;
    }

    /** A click on a canvas item: selects it, unless in preview mode. */
    method ClickItem(id: string)
      modifies this
      ensures selectedId == if old(isPreviewMode) then old(selectedId) else Some(id)
      ensures placeholders == old(placeholders) && isPreviewMode == old(isPreviewMode)
      ensures previewData == old(previewData)
    {
      if !isPreviewMode {
        selectedId := Some(id);
      }
    }

    /** A click on an entry of the "All Elements" list selects it. */
    method SelectFromList(id: string)
      modifies this
      ensures selectedId == Some(id)
      ensures placeholders == old(placeholders) && isPreviewMode == old(isPreviewMode)
      ensures previewData == old(previewData)
    {
      selectedId := Some(id);
    }

    /** A click on the empty canvas clears the selection. */
    method ClickCanvas()
      modifies this
      ensures selectedId == None
      ensures placeholders == old(placeholders) && isPreviewMode == old(isPreviewMode)
      ensures previewData == old(previewData)
    {
      selectedId := None;
    }

    /** The Preview / Edit Design button. */
    method TogglePreview()
      modifies this
      ensures isPreviewMode == !old(isPreviewMode)
      ensures placeholders == old(placeholders) && selectedId == old(selectedId)
      ensures previewData == old(previewData)
    {
      isPreviewMode := !isPreviewMode;
    }

    /** An edit in the preview-data panel replaces one sample value. */
    method EditPreview(field: PreviewField, value: string)
      modifies this
      ensures previewData == match field
        case ParticipantNameField => old(previewData).(participantName := value)
        case EventNameField => old(previewData).(eventName := value)
        case DateField => old(previewData).(date := value)
        case CategoryField => old(previewData).(category := value)
      ensures placeholders == old(placeholders) && selectedId == old(selectedId)
      ensures isPreviewMode == old(isPreviewMode)
    {
      match field
      case ParticipantNameField => previewData := previewData.(participantName := value);
      case EventNameField => previewData := previewData.(eventName := value);
      case DateField => previewData := previewData.(date := value);
      case CategoryField => previewData := previewData.(category := value);
    }

    /** The Save Template button hands the current list to the page's save handler. */
    method Save() returns (saved: seq<Placeholder>)
      ensures saved == placeholders
    {
      saved := placeholders;
    }
  }

  /** `ps.find(p => p.id === id)`. */
  function FirstWithId(ps: seq<Placeholder>, id: string): (r: Option<Placeholder>)
    ensures r.Some? ==> r.value in ps && r.value.id == id
    ensures r.None? <==> forall i :: 0 <= i < |ps| ==> ps[i].id != id
    ensures r.Some? ==> (exists i :: 0 <= i < |ps| && ps[i] == r.value &&
                          forall j :: 0 <= j < i ==> ps[j].id != id)
  {
    if ps == [] then None
    else if ps[0].id == id then Some(ps[0])
    else
      var r := FirstWithId(ps[1..], id);
      assert forall i :: 0 <= i < |ps| - 1 ==> ps[1..][i] == ps[i + 1];
      r
  }
}
