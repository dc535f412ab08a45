/** Background images available to the designer: the local `public/templates` listing kept by
    file extension (app/actions/templates.ts line 53 and app/dashboard/templates/page.tsx
    `getTemplateImages`), and the gallery caption. Directory reads are inputs. */
module TemplateImages {
  import opened Wrappers
  import opened Strings

  /** The extensions the listing keeps, as the regular expression spells them. */
  const ImageExtensions: seq<string> := ["png", "jpg", "jpeg", "svg"]

  /** `/\.(png|jpg|jpeg|svg)$/i.test(name)`. */
  predicate IsTemplateImage(name: string)
  {
    exists ext :: ext in ImageExtensions && EndsWithIgnoringCase(name, "." + ext)
  }

  /** The text after the last dot, when the name has a dot. */
  function Extension(name: string): (r: Option<string>)
    ensures r.Some? ==> '.' !in r.value
  {
    if '.' in name then Some(AfterLast(name, '.')) else None
  }

  /** Lower-casing never produces nor removes a dot. */
  lemma LowerAsciiDot(c: char)
    ensures LowerAscii(c) == '.' <==> c == '.'
  {
  }

  /** A name ending in `.ext` (ignoring case) has its last dot right before the extension. */
  lemma EndsWithDot(name: string, ext: string)
    requires '.' !in ext
    requires EndsWithIgnoringCase(name, "." + ext)
    ensures Extension(name) == Some(name[|name| - |ext|..])
    ensures LowerAsciiString(name[|name| - |ext|..]) == LowerAsciiString(ext)
  {
    var k := |name| - |ext| - 1;
    var t := name[k..];
    assert LowerAsciiString(t)[0] == LowerAsciiString("." + ext)[0];
    LowerAsciiDot(name[k]);
    assert name[k] == '.';
    forall i | 0 <= i < |ext|
      ensures LowerAscii(name[k + 1 + i]) == LowerAscii(ext[i])
      ensures name[k + 1 + i] != '.'
    {
      assert LowerAsciiString(t)[1 + i] == LowerAsciiString("." + ext)[1 + i];
      LowerAsciiDot(name[k + 1 + i]);
      LowerAsciiDot(ext[i]);
    }
    assert '.' !in name[k + 1..] by {
      forall j | k + 1 <= j < |name| ensures name[j] != '.' {
        assert name[k + 1 + (j - k - 1)] != '.';
      }
    }
    AfterLastAt(name, '.', k);
  }

  /** Conversely, a dot followed by `ext` (ignoring case) makes the name end in `.ext`. */
  lemma DotMakesEnding(name: string, e: string, ext: string)
    requires |e| < |name| && name[|name| - |e| - 1] == '.' && e == name[|name| - |e|..]
    requires LowerAsciiString(e) == LowerAsciiString(ext) && |e| == |ext|
    ensures EndsWithIgnoringCase(name, "." + ext)
  {
    var k := |name| - |e| - 1;
    var l, m := LowerAsciiString(name[k..]), LowerAsciiString("." + ext);
    forall i | 0 <= i < |l| ensures l[i] == m[i] {
      if i > 0 {
        assert name[k..][i] == e[i - 1];
        assert LowerAsciiString(e)[i - 1] == LowerAsciiString(ext)[i - 1];
      }
    }
  }

  /** A string with no upper-case ASCII letter is its own lower-case form. */
  lemma LowerOfLowercase(s: string)
    requires forall i :: 0 <= i < |s| ==> 'a' <= s[i] <= 'z'
    ensures LowerAsciiString(s) == s && '.' !in s
  {
    assert forall i :: 0 <= i < |s| ==> LowerAsciiString(s)[i] == s[i];
  }

  /** The four extensions are written in lower case and contain no dot. */
  lemma LowerExtension(ext: string)
    requires ext in ImageExtensions
    ensures LowerAsciiString(ext) == ext && '.' !in ext
  {
    var i :| 0 <= i < |ImageExtensions| && ImageExtensions[i] == ext;
    if i == 0 {
      LowerOfLowercase("png");
    } else if i == 1 {
      LowerOfLowercase("jpg");
    } else if i == 2 {
      LowerOfLowercase("jpeg");
    } else {
      LowerOfLowercase("svg");
    }
  }

  /** A name ending in one of the four extensions has it after its last dot. */
  lemma HasExtension(name: string, ext: string)
    requires ext in ImageExtensions && EndsWithIgnoringCase(name, "." + ext)
    ensures Extension(name).Some? && LowerAsciiString(Extension(name).value) == ext
  {
    LowerExtension(ext);
    EndsWithDot(name, ext);
  }

  /** A kept name has one of the four extensions after its last dot. */
  lemma ImageHasExtension(name: string)
    requires IsTemplateImage(name)
    ensures Extension(name).Some? && LowerAsciiString(Extension(name).value) in ImageExtensions
  {
    var ext :| ext in ImageExtensions && EndsWithIgnoringCase(name, "." + ext);
    HasExtension(name, ext);
  }

  /** A name with one of the four extensions after its last dot ends in it. */
  lemma EndsWithExtension(name: string, ext: string)
    requires ext in ImageExtensions
    requires Extension(name).Some? && LowerAsciiString(Extension(name).value) == ext
    ensures EndsWithIgnoringCase(name, "." + ext)
  {
    LowerExtension(ext);
    var e := Extension(name).value;
    assert |e| < |name|;
    DotMakesEnding(name, e, ext);
  }

  /** A name with one of the four extensions after its last dot is kept. */
  lemma ExtensionIsImage(name: string)
    requires Extension(name).Some? && LowerAsciiString(Extension(name).value) in ImageExtensions
    ensures IsTemplateImage(name)
  {
    EndsWithExtension(name, LowerAsciiString(Extension(name).value));
  }

  /** The regular expression keeps a file exactly when the text after its last dot is one of
      the four extensions, ignoring ASCII case. */
  lemma ExtensionCharacterisation(name: string)
    ensures IsTemplateImage(name) <==>
      Extension(name).Some? && LowerAsciiString(Extension(name).value) in ImageExtensions
  {
    if IsTemplateImage(name) {
      ImageHasExtension(name);
    }
    if Extension(name).Some? && LowerAsciiString(Extension(name).value) in ImageExtensions {
      ExtensionIsImage(name);
    }
  }

  /** The public path of a file of `public/templates`. */
  function TemplatePath(file: string): string
  {
    "/templates/" + file
  }

  /** `files.filter(IsTemplateImage).map(TemplatePath)`. */
  function LocalTemplateUrls(files: seq<string>): (r: seq<string>)
    ensures |r| <= |files|
    ensures forall u :: u in r <==> exists f :: f in files && IsTemplateImage(f) && u == TemplatePath(f)
  {
    if files == [] then []
    else
      (if IsTemplateImage(files[0]) then [TemplatePath(files[0])] else []) + LocalTemplateUrls(files[1..])
  }

  /** Order is preserved: the URLs of a concatenated listing are those of each part, in turn. */
  lemma {:induction false} LocalTemplateUrlsAppend(a: seq<string>, b: seq<string>)
    ensures LocalTemplateUrls(a + b) == LocalTemplateUrls(a) + LocalTemplateUrls(b)
  {
    if a == [] {
      assert a + b == b;
    } else {
      var head := if IsTemplateImage(a[0]) then [TemplatePath(a[0])] else [];
      assert (a + b)[0] == a[0] && (a + b)[1..] == a[1..] + b;
      assert LocalTemplateUrls(a + b) == head + LocalTemplateUrls(a[1..] + b);
      LocalTemplateUrlsAppend(a[1..], b);
      assert LocalTemplateUrls(a) == head + LocalTemplateUrls(a[1..]);
    }
  }

  /** A directory listing: the names read, or a failed read. */
  datatype Listing = ReadFailed | Listed(files: seq<string>)

  /** The dashboard gallery's `getTemplateImages`: a failed read shows no image. */
  function GetTemplateImages(listing: Listing): (r: seq<string>)
    ensures listing.ReadFailed? ==> r == []
    ensures listing.Listed? ==> r == LocalTemplateUrls(listing.files)
  {
    match listing
    case ReadFailed => []
    case Listed(files) => LocalTemplateUrls(files)
  }

  /** The gallery caption `img.split('/').pop()`. */
  function Caption(url: string): (r: string)
    ensures '/' !in r
  {
    AfterLast(url, '/')
  }

  /** The caption of a listed image is its file name (directory entries contain no `/`). */
  lemma CaptionIsFileName(file: string)
    requires '/' !in file
    ensures Caption(TemplatePath(file)) == file
  {
    var url := TemplatePath(file);
    assert url[10] == '/';
    assert url[11..] == file;
    AfterLastAt(url, '/', 10);
  }
}
