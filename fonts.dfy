/** The set of font families a placeholder list asks for, and the Google Fonts stylesheet URL
    built from it (app/verify/certificate-view.tsx `getGoogleFontsUrl`; the designer builds
    the same set in a loop, see Designer.FontsToLoad). */
module Fonts {
  import opened Wrappers
  import opened Strings
  import opened Placeholders

  const FontsPrefix := "https://fonts.googleapis.com/css2?family="
  const FontsSeparator := "&family="
  const FontsSuffix := "&display=swap"

  /** `[p.fontFamily, p.prefixFontFamily].filter(Boolean)`. */
  function FamiliesOf(p: Placeholder): (r: seq<string>)
    ensures "" !in r
    ensures forall f :: f in r <==>
      (Truthy(p.fontFamily) && f == p.fontFamily.value) ||
      (Truthy(p.prefixFontFamily) && f == p.prefixFontFamily.value)
  {
    (if Truthy(p.fontFamily) then [p.fontFamily.value] else []) +
    (if Truthy(p.prefixFontFamily) then [p.prefixFontFamily.value] else [])
  }

  /** Some placeholder asks for a font family. */
  predicate NamesAFamily(p: Placeholder)
  {
    Truthy(p.fontFamily) || Truthy(p.prefixFontFamily)
  }

  /** `ps.flatMap(FamiliesOf)`, in placeholder order. */
  function AllFamilies(ps: seq<Placeholder>): (r: seq<string>)
    ensures "" !in r
    ensures forall f :: f in r <==> exists i :: 0 <= i < |ps| && f in FamiliesOf(ps[i])
  {
    if ps == [] then []
    else
      var r' := AllFamilies(ps[..|ps| - 1]);
      assert forall i :: 0 <= i < |ps| - 1 ==> ps[..|ps| - 1][i] == ps[i];
      r' + FamiliesOf(ps[|ps| - 1])
  }

  /** A sequence with no repeated element. */
  predicate NoDuplicates(s: seq<string>)
  {
    forall i, j :: 0 <= i < j < |s| ==> s[i] != s[j]
  }

  /** `set.add(x)` on a JavaScript `Set`, which remembers insertion order. */
  function Add(s: seq<string>, x: string): (r: seq<string>)
    ensures NoDuplicates(s) ==> NoDuplicates(r)
    ensures forall y :: y in r <==> y in s || y == x
  {
    if x in s then s else s + [x]
  }

  /** `Array.from(new Set(s))`: each element once, at the place it first occurs. */
  function Distinct(s: seq<string>): (r: seq<string>)
    ensures NoDuplicates(r)
    ensures forall x :: x in r <==> x in s
  {
    if s == [] then [] else Add(Distinct(s[..|s| - 1]), s[|s| - 1])
  }

  /** Adding to a `Set` element by element builds `Distinct` of what was added. */
  lemma {:induction false} DistinctAppend(s: seq<string>, t: seq<string>)
    ensures Distinct(s + t) == AddAll(Distinct(s), t)
    decreases |t|
  {
    if t == [] {
      assert s + t == s;
    } else {
      var t' := t[..|t| - 1];
      DistinctAppend(s, t');
      assert (s + t)[..|s + t| - 1] == s + t';
    }
  }

  /** `t.forEach(x => set.add(x))`. */
  function AddAll(s: seq<string>, t: seq<string>): seq<string>
  {
    if t == [] then s else Add(AddAll(s, t[..|t| - 1]), t[|t| - 1])
  }

  /** Adding one placeholder's families to a `Set`: its `fontFamily` first, then its
      `prefixFontFamily`, each only when truthy. */
  lemma AddFamiliesOf(s: seq<string>, p: Placeholder)
    ensures AddAll(s, FamiliesOf(p)) ==
      var s1 := if Truthy(p.fontFamily) then Add(s, p.fontFamily.value) else s;
      if Truthy(p.prefixFontFamily) then Add(s1, p.prefixFontFamily.value) else s1
  {
    var t := FamiliesOf(p);
    if |t| == 2 {
      assert t[..1] == [t[0]];
      assert AddAll(s, t[..1]) == Add(AddAll(s, []), t[0]);
    } else if |t| == 1 {
      assert AddAll(s, t) == Add(AddAll(s, []), t[0]);
    }
  }

  /** The family list of the first `i + 1` placeholders extends that of the first `i`. */
  lemma AllFamiliesStep(ps: seq<Placeholder>, i: nat)
    requires i < |ps|
    ensures AllFamilies(ps[..i + 1]) == AllFamilies(ps[..i]) + FamiliesOf(ps[i])
  {
    assert ps[..i + 1][..i] == ps[..i];
  }

  /** The stylesheet URL for a list of distinct families, or `null` for none. */
  function FontsUrl(families: seq<string>): (r: Option<string>)
    ensures r.None? <==> families == []
    ensures r.Some? ==> |r.value| >= |FontsPrefix| + |FontsSuffix|
    ensures r.Some? ==> r.value[..|FontsPrefix|] == FontsPrefix
    ensures r.Some? ==> r.value[|r.value| - |FontsSuffix|..] == FontsSuffix
    ensures |families| == 1 ==> r == Some(FontsPrefix + SpacesToPlus(families[0]) + FontsSuffix)
    ensures families != [] ==> r == Some(FontsPrefix + Join(Encoded(families), FontsSeparator) + FontsSuffix)
  {
    if families == [] then None
    else
      var url := FontsPrefix + Join(Encoded(families), FontsSeparator) + FontsSuffix;
      assert url[..|FontsPrefix|] == FontsPrefix;
      Some(url)
  }

  /** `families.map(f => f.replace(/ /g, '+'))`. */
  function Encoded(families: seq<string>): (r: seq<string>)
    ensures |r| == |families|
    ensures forall i :: 0 <= i < |families| ==> r[i] == SpacesToPlus(families[i])
  {
    if families == [] then [] else [SpacesToPlus(families[0])] + Encoded(families[1..])
  }

  /** Where family `i` starts in the stylesheet URL. */
  function FamilyOffset(families: seq<string>, i: nat): nat
    requires i < |families|
  {
    |FontsPrefix| + JoinOffset(Encoded(families), FontsSeparator, i)
  }

  /** Family `i`, with its spaces turned into `+`, stands in the URL at its offset. */
  lemma FontsUrlFamily(families: seq<string>, i: nat)
    requires i < |families|
    ensures FontsUrl(families).Some?
    ensures var url := FontsUrl(families).value;
      FamilyOffset(families, i) + |families[i]| <= |url| &&
      url[FamilyOffset(families, i)..FamilyOffset(families, i) + |families[i]|] == SpacesToPlus(families[i])
  {
    var parts := Encoded(families);
    var joined := Join(parts, FontsSeparator);
    JoinPart(parts, FontsSeparator, i);
    var a := JoinOffset(parts, FontsSeparator, i);
    assert FontsUrl(families).value == FontsPrefix + joined + FontsSuffix;
    assert parts[i] == SpacesToPlus(families[i]) && |parts[i]| == |families[i]|;
    MiddleSlice(FontsPrefix, joined, FontsSuffix, a, a + |parts[i]|);
  }

  /** Consecutive families are separated by `&family=`. */
  lemma FontsUrlSeparator(families: seq<string>, i: nat)
    requires i + 1 < |families|
    ensures FontsUrl(families).Some?
    ensures var url := FontsUrl(families).value;
      var k := FamilyOffset(families, i) + |families[i]|;
      k + |FontsSeparator| == FamilyOffset(families, i + 1) &&
      k + |FontsSeparator| <= |url| && url[k..k + |FontsSeparator|] == FontsSeparator
  {
    var parts := Encoded(families);
    var joined := Join(parts, FontsSeparator);
    JoinSeparator(parts, FontsSeparator, i);
    JoinOffsetStep(parts, FontsSeparator, i);
    var a := JoinOffset(parts, FontsSeparator, i) + |parts[i]|;
    assert FontsUrl(families).value == FontsPrefix + joined + FontsSuffix;
    assert |parts[i]| == |families[i]|;
    MiddleSlice(FontsPrefix, joined, FontsSuffix, a, a + |FontsSeparator|);
  }

  /** The URL ends right after the last family and the `&display=swap` suffix; with the two
      lemmas above this fixes every character of the URL. */
  lemma FontsUrlLength(families: seq<string>)
    requires families != []
    ensures FontsUrl(families).Some?
    ensures |FontsUrl(families).value| ==
      FamilyOffset(families, |families| - 1) + |families[|families| - 1]| + |FontsSuffix|
  {
    JoinLength(Encoded(families), FontsSeparator);
  }

  /** No family is collected exactly when no placeholder names one. */
  lemma {:induction false} NoFamilies(ps: seq<Placeholder>)
    ensures AllFamilies(ps) == [] <==> forall i :: 0 <= i < |ps| ==> !NamesAFamily(ps[i])
  {
    if ps != [] {
      var ps', p := ps[..|ps| - 1], ps[|ps| - 1];
      NoFamilies(ps');
      assert AllFamilies(ps) == AllFamilies(ps') + FamiliesOf(p);
      assert FamiliesOf(p) == [] <==> !NamesAFamily(p);
      assert forall i :: 0 <= i < |ps'| ==> ps'[i] == ps[i];
    }
  }

  /** `getGoogleFontsUrl()`: null exactly when no placeholder names a family; otherwise the
      URL lists every family named anywhere, each once. */
  function GoogleFontsUrl(ps: seq<Placeholder>): (r: Option<string>)
    ensures r.None? <==> forall i :: 0 <= i < |ps| ==> !NamesAFamily(ps[i])
    ensures r.Some? ==> r == FontsUrl(Distinct(AllFamilies(ps)))
  {
    NoFamilies(ps);
    var families := Distinct(AllFamilies(ps));
    assert families == [] <==> AllFamilies(ps) == [] by {
      if AllFamilies(ps) != [] { assert AllFamilies(ps)[0] in families; }
    }
    FontsUrl(families)
  }
}
