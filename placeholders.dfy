/** The positionable field of a certificate template (the `Placeholder` record of
    app/components/CertificateDesigner.tsx), the partial updates the designer merges into it,
    and JavaScript truthiness for its optional attributes. */
module Placeholders {
  import opened Wrappers
  import opened Strings

  datatype Kind = Text | Qr

  datatype Align = Left | Center | Right

  /** One placeholder. `kind` is the source's `type`; optional attributes are `Option`s. */
  datatype Placeholder = Placeholder(
    id: string,
    kind: Kind,
    labelText: string,
    key: string,
    x: real,
    y: real,
    fontSize: Option<real>,
    fontWeight: Option<string>,
    color: Option<string>,
    prefix: Option<string>,
    width: Option<real>,
    fontFamily: Option<string>,
    textAlign: Option<Align>,
    prefixColor: Option<string>,
    prefixFontWeight: Option<string>,
    prefixFontFamily: Option<string>,
    prefixFontSize: Option<real>)

  /** A `Partial<Placeholder>`: `None` leaves a field alone; `Some(v)` overwrites it. For an
      optional attribute `v` is itself optional, because `{ width: undefined }` spreads an
      explicit `undefined` over the old width. */
  datatype Patch = Patch(
    id: Option<string>,
    kind: Option<Kind>,
    labelText: Option<string>,
    key: Option<string>,
    x: Option<real>,
    y: Option<real>,
    fontSize: Option<Option<real>>,
    fontWeight: Option<Option<string>>,
    color: Option<Option<string>>,
    prefix: Option<Option<string>>,
    width: Option<Option<real>>,
    fontFamily: Option<Option<string>>,
    textAlign: Option<Option<Align>>,
    prefixColor: Option<Option<string>>,
    prefixFontWeight: Option<Option<string>>,
    prefixFontFamily: Option<Option<string>>,
    prefixFontSize: Option<Option<real>>)

  /** The patch that mentions no field. */
  const NoChange := Patch(None, None, None, None, None, None, None, None, None, None, None,
                          None, None, None, None, None, None)

  /** The patch `{ key, label }` sent when the data mapping changes. */
  function KeyAndLabel(key: string, labelText: string): Patch
  {
    NoChange.(key := Some(key), labelText := Some(labelText))
  }

  /** `{ ...p, ...u }`: the fields `u` mentions come from `u`, all others from `p`. */
  function Merge(p: Placeholder, u: Patch): (r: Placeholder)
    ensures u == NoChange ==> r == p
    ensures (u.id.Some? ==> r.id == u.id.value) && (u.id.None? ==> r.id == p.id)
    ensures (u.kind.Some? ==> r.kind == u.kind.value) && (u.kind.None? ==> r.kind == p.kind)
    ensures (u.labelText.Some? ==> r.labelText == u.labelText.value) && (u.labelText.None? ==> r.labelText == p.labelText)
    ensures (u.key.Some? ==> r.key == u.key.value) && (u.key.None? ==> r.key == p.key)
    ensures (u.x.Some? ==> r.x == u.x.value) && (u.x.None? ==> r.x == p.x)
    ensures (u.y.Some? ==> r.y == u.y.value) && (u.y.None? ==> r.y == p.y)
    ensures (u.fontSize.Some? ==> r.fontSize == u.fontSize.value) && (u.fontSize.None? ==> r.fontSize == p.fontSize)
    ensures (u.fontWeight.Some? ==> r.fontWeight == u.fontWeight.value) && (u.fontWeight.None? ==> r.fontWeight == p.fontWeight)
    ensures (u.color.Some? ==> r.color == u.color.value) && (u.color.None? ==> r.color == p.color)
    ensures (u.prefix.Some? ==> r.prefix == u.prefix.value) && (u.prefix.None? ==> r.prefix == p.prefix)
    ensures (u.width.Some? ==> r.width == u.width.value) && (u.width.None? ==> r.width == p.width)
    ensures (u.fontFamily.Some? ==> r.fontFamily == u.fontFamily.value) && (u.fontFamily.None? ==> r.fontFamily == p.fontFamily)
    ensures (u.textAlign.Some? ==> r.textAlign == u.textAlign.value) && (u.textAlign.None? ==> r.textAlign == p.textAlign)
    ensures (u.prefixColor.Some? ==> r.prefixColor == u.prefixColor.value) && (u.prefixColor.None? ==> r.prefixColor == p.prefixColor)
    ensures (u.prefixFontWeight.Some? ==> r.prefixFontWeight == u.prefixFontWeight.value) && (u.prefixFontWeight.None? ==> r.prefixFontWeight == p.prefixFontWeight)
    ensures (u.prefixFontFamily.Some? ==> r.prefixFontFamily == u.prefixFontFamily.value) && (u.prefixFontFamily.None? ==> r.prefixFontFamily == p.prefixFontFamily)
    ensures (u.prefixFontSize.Some? ==> r.prefixFontSize == u.prefixFontSize.value) && (u.prefixFontSize.None? ==> r.prefixFontSize == p.prefixFontSize)
  {
    Placeholder(
      u.id.GetOr(p.id), u.kind.GetOr(p.kind), u.labelText.GetOr(p.labelText), u.key.GetOr(p.key),
      u.x.GetOr(p.x), u.y.GetOr(p.y), u.fontSize.GetOr(p.fontSize),
      u.fontWeight.GetOr(p.fontWeight), u.color.GetOr(p.color), u.prefix.GetOr(p.prefix),
      u.width.GetOr(p.width), u.fontFamily.GetOr(p.fontFamily), u.textAlign.GetOr(p.textAlign),
      u.prefixColor.GetOr(p.prefixColor), u.prefixFontWeight.GetOr(p.prefixFontWeight),
      u.prefixFontFamily.GetOr(p.prefixFontFamily), u.prefixFontSize.GetOr(p.prefixFontSize))
  }

  /** Spreading the same partial update twice is spreading it once. */
  lemma MergeIdempotent(p: Placeholder, u: Patch)
    ensures Merge(Merge(p, u), u) == Merge(p, u)
  {
  }

  /** A number attribute is truthy when present and non-zero. */
  predicate TruthyNum(n: Option<real>)
  {
    n.Some? && n.value != 0.0
  }

  /** `n || fallback` for an optional number. */
  function NumOr(n: Option<real>, fallback: real): (r: real)
    ensures TruthyNum(n) ==> r == n.value
    ensures !TruthyNum(n) ==> r == fallback
  {
    if TruthyNum(n) then n.value else fallback
  }

  /** `a || b || fallback`: the first truthy of two optional strings, else `fallback`. */
  function Chain(a: Option<string>, b: Option<string>, fallback: string): (r: string)
    ensures Truthy(a) ==> r == a.value
    ensures !Truthy(a) && Truthy(b) ==> r == b.value
    ensures !Truthy(a) && !Truthy(b) ==> r == fallback
  {
    StrOr(a, StrOr(b, fallback))
  }

  /** `JSON.stringify` and `JSON.parse` for a placeholder list. The encoding itself is not
      modelled; `parse` yields `None` where `JSON.parse` throws. */
  datatype JsonCodec = JsonCodec(stringify: seq<Placeholder> -> string,
                                 parse: string -> Option<seq<Placeholder>>)

  /** What the model assumes of JSON: a list survives a stringify/parse round trip, and the
      text of a list is never empty (it always starts with `[`). */
  ghost predicate Lawful(codec: JsonCodec)
  {
    forall ps: seq<Placeholder> ::
      codec.parse(codec.stringify(ps)) == Some(ps) && codec.stringify(ps) != ""
  }

  /** Style of the main text box of a text placeholder. `width == None` is `'auto'`;
      `wraps` is `whiteSpace: 'normal'` (otherwise `'nowrap'`); `padding` is the padding on
      every side, in pixels. */
  datatype TextStyle = TextStyle(
    fontSize: real,
    fontWeight: string,
    color: string,
    width: Option<real>,
    textAlign: Align,
    fontFamily: string,
    wraps: bool,
    padding: real)

  /** Style of the prefix span. `fontSize == None` is `'inherit'`. */
  datatype PrefixStyle = PrefixStyle(
    color: string,
    fontWeight: string,
    fontFamily: string,
    fontSize: Option<real>)
}
