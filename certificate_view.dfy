/** The public certificate page body (`CertificateView` in app/verify/certificate-view.tsx):
    resolves each placeholder's key against the certificate's participant and event, lays the
    placeholders out on the 800-unit canvas and scales that canvas to the viewport. */
module CertificateView {
  import opened Wrappers
  import opened Strings
  import opened Placeholders
  import opened Fonts
  import opened Store
  import opened Designer

  /** The base URL used when `NEXT_PUBLIC_APP_URL` is unset or empty. */
  const DefaultAppUrl := "http://localhost:3000"

  /** The logical canvas width shared with the designer and the horizontal margin. */
  const BaseWidth: real := 800.0
  const Margin: real := 32.0

  /** What the resolver sees: the certificate id, its participant and event (either may be
      absent), the configured base URL and the locale date formatter `toLocaleDateString`. */
  datatype ViewContext = ViewContext(
    certificateId: string,
    participant: Option<Participant>,
    event: Option<Event>,
    appUrl: Option<string>,
    formatDate: int -> string)

  /** `certificateUrl`: the verification link of a certificate. */
  function CertificateUrl(appUrl: Option<string>, id: string): (r: string)
    ensures Truthy(appUrl) ==> r == appUrl.value + "/verify?id=" + id
    ensures !Truthy(appUrl) ==> r == DefaultAppUrl + "/verify?id=" + id
  {
    StrOr(appUrl, DefaultAppUrl) + "/verify?id=" + id
  }

  /** The `date` variable: empty without an event, the start date alone without an end
      date, otherwise `start - end`. */
  function DateValue(event: Option<Event>, formatDate: int -> string): (r: string)
    ensures event.None? ==> r == ""
    ensures event.Some? && event.value.endDate.None? ==> r == formatDate(event.value.startDate)
    ensures event.Some? && event.value.endDate.Some? ==>
      r == formatDate(event.value.startDate) + " - " + formatDate(event.value.endDate.value)
  {
    match event
    case None => ""
    case Some(e) =>
      var start := formatDate(e.startDate);
      match e.endDate
      case None => start
      case Some(end) => start + " - " + formatDate(end)
  }

  /** The keys the resolver recognises. */
  const Keys: set<string> := {"participantName", "eventName", "category", "certificateLink", "date", "qrCode"}

  /** `getValue(key)`. It never fails: an absent participant or event, or an unknown key,
      gives the empty string. */
  function GetValue(ctx: ViewContext, key: string): (r: string)
    ensures key == "participantName" ==> r == (if ctx.participant.Some? then ctx.participant.value.name else "")
    ensures key == "category" ==> r == (if ctx.participant.Some? then ctx.participant.value.category else "")
    ensures key == "eventName" ==> r == (if ctx.event.Some? then ctx.event.value.name else "")
    ensures key == "date" ==> r == DateValue(ctx.event, ctx.formatDate)
    ensures key == "certificateLink" || key == "qrCode" ==> r == CertificateUrl(ctx.appUrl, ctx.certificateId)
    ensures key !in Keys ==> r == ""
  {
    if key == "participantName" then (if ctx.participant.Some? then ctx.participant.value.name else "")
    else if key == "eventName" then (if ctx.event.Some? then ctx.event.value.name else "")
    else if key == "category" then (if ctx.participant.Some? then ctx.participant.value.category else "")
    else if key == "certificateLink" then CertificateUrl(ctx.appUrl, ctx.certificateId)
    else if key == "date" then DateValue(ctx.event, ctx.formatDate)
    else if key == "qrCode" then CertificateUrl(ctx.appUrl, ctx.certificateId)
    else ""
  }

  /** The two link keys resolve to one and the same string, which ends with the id. */
  lemma LinkKeysAgree(ctx: ViewContext)
    ensures GetValue(ctx, "certificateLink") == GetValue(ctx, "qrCode")
    ensures var url := GetValue(ctx, "qrCode");
      |url| >= |ctx.certificateId| && url[|url| - |ctx.certificateId|..] == ctx.certificateId
  {
  }

  /** A recognised key resolves to a non-empty value exactly when the field behind it is
      non-empty (the link is never empty). */
  lemma ResolvedNonEmpty(ctx: ViewContext, key: string)
    requires ctx.participant.Some? && ctx.event.Some?
    ensures key == "participantName" ==> (GetValue(ctx, key) != "" <==> ctx.participant.value.name != "")
    ensures key == "category" ==> (GetValue(ctx, key) != "" <==> ctx.participant.value.category != "")
    ensures key == "eventName" ==> (GetValue(ctx, key) != "" <==> ctx.event.value.name != "")
    ensures key == "date" ==> (GetValue(ctx, key) != "" <==>
      ctx.formatDate(ctx.event.value.startDate) != "" || ctx.event.value.endDate.Some?)
    ensures key == "certificateLink" || key == "qrCode" ==> GetValue(ctx, key) != ""
  {
    if key == "date" && ctx.event.value.endDate.Some? {
      var s := ctx.formatDate(ctx.event.value.startDate) + " - " + ctx.formatDate(ctx.event.value.endDate.value);
      assert |s| >= 3;
    }
  }

  /** The designer's preview data that stands for a real context: each sample value is what
      the resolver yields for that key. */
  function PreviewOf(ctx: ViewContext): PreviewData
  {
    PreviewData(GetValue(ctx, "participantName"), GetValue(ctx, "eventName"), GetValue(ctx, "date"),
                GetValue(ctx, "category"), GetValue(ctx, "certificateLink"), GetValue(ctx, "qrCode"))
  }

  /** The designer's preview lookup and the certificate's resolver follow the same key
      table: fed the resolved values, the preview shows what the certificate shows, for every
      key, recognised or not. */
  lemma PreviewMatchesResolver(ctx: ViewContext, key: string)
    ensures PreviewValue(PreviewOf(ctx), key) == GetValue(ctx, key)
  {
  }

  // ---------------------------------------------------------------------------------------
  // Scaling.

  /** The width the canvas is fitted into: the parent's `offsetWidth`, or the window width
      when that is zero or there is no parent. */
  function ContainerWidth(parentWidth: Option<real>, windowWidth: real): (w: real)
    ensures TruthyNum(parentWidth) ==> w == parentWidth.value
    ensures !TruthyNum(parentWidth) ==> w == windowWidth
  {
    NumOr(parentWidth, windowWidth)
  }

  /** `handleResize`'s formula: `min((W - 32) / 800, 1)`, replaced by 1 when not positive.
      It never enlarges, shrinks exactly to fit below 832 units, and is always positive. */
  function Scale(width: real): (s: real)
    ensures 0.0 < s <= 1.0
    ensures width >= BaseWidth + Margin ==> s == 1.0
    ensures Margin < width < BaseWidth + Margin ==> s == (width - Margin) / BaseWidth
    ensures width <= Margin ==> s == 1.0
  {
    var fitted := (width - Margin) / BaseWidth;
    var newScale := if fitted < 1.0 then fitted else 1.0;
    if newScale > 0.0 then newScale else 1.0
  }

  /** The `scale` state after a resize: recomputed only when the container is mounted. */
  function AfterResize(scale: real, mounted: bool, parentWidth: Option<real>, windowWidth: real): (s: real)
    ensures mounted ==> s == Scale(ContainerWidth(parentWidth, windowWidth))
    ensures !mounted ==> s == scale
  {
    if mounted then Scale(ContainerWidth(parentWidth, windowWidth)) else scale
  }

  /** The scaled canvas always fits a container wider than the margin. */
  lemma ScaledCanvasFits(width: real)
    requires width > Margin
    ensures Scale(width) * BaseWidth <= width - Margin || Scale(width) == 1.0
    ensures Scale(width) * BaseWidth <= BaseWidth
  {
  }

  // ---------------------------------------------------------------------------------------
  // Layout.

  /** The style of a text placeholder's box on the certificate. */
  function ViewTextStyle(p: Placeholder): (r: TextStyle)
    ensures r.fontSize == NumOr(p.fontSize, 16.0)
    ensures r.fontWeight == StrOr(p.fontWeight, "normal")
    ensures r.color == StrOr(p.color, "#000000")
    ensures r.width.Some? <==> TruthyNum(p.width)
    ensures r.wraps <==> TruthyNum(p.width)
    ensures r.textAlign == p.textAlign.GetOr(Center)
    ensures r.fontFamily == StrOr(p.fontFamily, "serif")
    ensures r.padding == 0.0
  {
    TextStyle(NumOr(p.fontSize, 16.0), StrOr(p.fontWeight, "normal"), StrOr(p.color, "#000000"),
              if TruthyNum(p.width) then Some(p.width.value) else None,
              p.textAlign.GetOr(Center), StrOr(p.fontFamily, "serif"), TruthyNum(p.width), 0.0)
  }

  /** The style of the prefix span on the certificate. */
  function ViewPrefixStyle(p: Placeholder): (r: PrefixStyle)
    ensures r.color == Chain(p.prefixColor, p.color, "#000000")
    ensures r.fontWeight == Chain(p.prefixFontWeight, p.fontWeight, "normal")
    ensures r.fontFamily == Chain(p.prefixFontFamily, p.fontFamily, "inherit")
    ensures r.fontSize.Some? <==> TruthyNum(p.prefixFontSize)
  {
    PrefixStyle(Chain(p.prefixColor, p.color, "#000000"),
                Chain(p.prefixFontWeight, p.fontWeight, "normal"),
                Chain(p.prefixFontFamily, p.fontFamily, "inherit"),
                if TruthyNum(p.prefixFontSize) then Some(p.prefixFontSize.value) else None)
  }

  /** One positioned element of the certificate. */
  datatype Element =
    | QrElement(left: real, top: real, size: real, value: string)
    | TextElement(left: real, top: real, style: TextStyle, prefixStyle: PrefixStyle, prefix: string, value: string)

  /** A placeholder laid out at (x, y): a QR placeholder is a square of side `width || 100`
      encoding the resolved value; a text placeholder is its prefix followed by the value. */
  function Layout(p: Placeholder, ctx: ViewContext): (r: Element)
    ensures r.left == p.x && r.top == p.y && r.value == GetValue(ctx, p.key)
    ensures r.QrElement? <==> p.kind == Qr
    ensures r.QrElement? ==> r.size == NumOr(p.width, 100.0)
    ensures r.TextElement? ==> r.prefix == StrOr(p.prefix, "")
    ensures r.TextElement? ==> r.style == ViewTextStyle(p) && r.prefixStyle == ViewPrefixStyle(p)
  {
    var value := GetValue(ctx, p.key);
    if p.kind == Qr then QrElement(p.x, p.y, NumOr(p.width, 100.0), value)
    else TextElement(p.x, p.y, ViewTextStyle(p), ViewPrefixStyle(p), StrOr(p.prefix, ""), value)
  }

  /** The certificate: one element per placeholder, in list order. */
  function Render(ps: seq<Placeholder>, ctx: ViewContext): (r: seq<Element>)
    ensures |r| == |ps|
    ensures forall i :: 0 <= i < |ps| ==> r[i] == Layout(ps[i], ctx)
  {
    if ps == [] then [] else [Layout(ps[0], ctx)] + Render(ps[1..], ctx)
  }

  /** The line under the certificate. */
  function FooterText(ctx: ViewContext): (r: string)
    ensures ctx.participant.None? ==> r == "Unassigned Draft Certificate"
    ensures ctx.participant.Some? ==>
      r == "Issued to " + ctx.participant.value.name + " for " +
           (if ctx.event.Some? then ctx.event.value.name else "")
  {
    match ctx.participant
    case None => "Unassigned Draft Certificate"
    case Some(p) => "Issued to " + p.name + " for " + (if ctx.event.Some? then ctx.event.value.name else "")
  }

  // ---------------------------------------------------------------------------------------
  // Parity between the design canvas and the certificate.

  /** Text boxes are styled alike on the canvas and on the certificate except in two
      attributes. The main font family falls back to `inherit` on the canvas and to `serif` on
      the certificate, so the families agree exactly when the placeholder names its own. The
      canvas text box is padded by 4px, the certificate's is not. */
  lemma TextStyleParity(p: Placeholder)
    ensures DesignerTextStyle(p).(fontFamily := "", padding := 0.0) == ViewTextStyle(p).(fontFamily := "", padding := 0.0)
    ensures DesignerTextStyle(p).fontFamily == ViewTextStyle(p).fontFamily <==> Truthy(p.fontFamily)
    ensures DesignerTextStyle(p).padding == ViewTextStyle(p).padding + 4.0
  {
  }

  /** Both draw a text placeholder's box at (x, y), but on the canvas the text sits inside
      the item's border and the box's padding: 5px further right and down than on the
      certificate, 6px for the selected item while editing. */
  lemma CanvasTextOffset(p: Placeholder, ctx: ViewContext, isSelected: bool, isPreviewMode: bool)
    requires p.kind == Text
    ensures var frame, element := ItemFrame(p, isSelected, isPreviewMode), Layout(p, ctx);
      frame.left == element.left && frame.top == element.top &&
      frame.borderWidth + ItemContent(p, isSelected, isPreviewMode, "").style.padding ==
        element.style.padding + (if isSelected && !isPreviewMode then 6.0 else 5.0)
  {
  }

  /** Prefix spans are styled identically on the canvas and on the certificate. */
  lemma PrefixStyleParity(p: Placeholder)
    ensures DesignerPrefixStyle(p) == ViewPrefixStyle(p)
  {
  }

  /** A QR placeholder has the same side in the designer's preview as on the certificate, and
      encodes the same value when the preview shows the resolved values (and that value is
      not empty). */
  lemma QrParity(p: Placeholder, ctx: ViewContext, isSelected: bool)
    requires p.kind == Qr
    requires GetValue(ctx, p.key) != ""
    ensures var c := ItemContent(p, isSelected, true, PreviewValue(PreviewOf(ctx), p.key));
      c.QrCode? && c.size == Layout(p, ctx).size && c.value == Layout(p, ctx).value
  {
    PreviewMatchesResolver(ctx, p.key);
  }

  /** The designer's preview shows a text placeholder's label where the resolved value is
      empty, the certificate shows nothing there: the texts agree exactly when the value is
      non-empty or the label is empty. */
  lemma TextParity(p: Placeholder, ctx: ViewContext, isSelected: bool)
    requires p.kind == Text
    ensures var c := ItemContent(p, isSelected, true, PreviewValue(PreviewOf(ctx), p.key));
      c.Label? && c.prefix == Layout(p, ctx).prefix &&
      (c.text == Layout(p, ctx).value <==> GetValue(ctx, p.key) != "" || p.labelText == "")
  {
    PreviewMatchesResolver(ctx, p.key);
  }
}
