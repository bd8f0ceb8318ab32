/** The build's `assetFileNames` rule: where an emitted asset goes, by its extension. */
module ViteConfig {
  import opened Text

  const ImageTemplate: string := "assets/img/[name].[hash][extname]"
  const CssTemplate: string := "assets/css/[name].[hash][extname]"
  const DefaultTemplate: string := "assets/[name].[hash][extname]"

  /** The alternatives of `/png|jpe?g|svg|gif|tiff|bmp|ico/`. */
  const ImagePatterns: seq<string> := ["png", "jpg", "jpeg", "svg", "gif", "tiff", "bmp", "ico"]

  /** `info[info.length - 1]` of `name.split('.')`: the text after the last dot, or the whole name. */
  function LastSegment(name: string): (r: string)
    ensures |r| <= |name|
    ensures '.' !in r
    decreases |name|
  {
    if name == [] || name[|name| - 1] == '.' then []
    else LastSegment(name[..|name| - 1]) + [name[|name| - 1]]
  }

  /** The last segment is the suffix of the name that follows its last dot, or the whole name. */
  lemma {:induction false} LastSegmentIsSuffix(name: string)
    ensures var r := LastSegment(name);
      && r == name[|name| - |r|..]
      && (|r| == |name| || name[|name| - |r| - 1] == '.')
    decreases |name|
  {
    if name != [] && name[|name| - 1] != '.' {
      var init := name[..|name| - 1];
      LastSegmentIsSuffix(init);
      var r := LastSegment(name);
      assert r == LastSegment(init) + [name[|name| - 1]];
      assert name[|name| - |r|..] == init[|init| - (|r| - 1)..] + [name[|name| - 1]];
    }
  }

  /** The image test: some alternative occurs in the segment, in any ASCII case. */
  predicate IsImageExtension(ext: string): (b: bool)
    ensures b ==> |ext| >= 3
  {
    exists i :: 0 <= i < |ImagePatterns| && ContainsIgnoreCase(ext, ImagePatterns[i])
  }

  /** The css test. */
  predicate IsCssExtension(ext: string): (b: bool)
    ensures b ==> |ext| >= 3
  {
    ContainsIgnoreCase(ext, "css")
  }

  /** `assetFileNames`. */
  function AssetFileName(name: string): (r: string)
    ensures r in {ImageTemplate, CssTemplate, DefaultTemplate}
  {
    var ext := LastSegment(name);
    if IsImageExtension(ext) then ImageTemplate
    else if IsCssExtension(ext) then CssTemplate
    else DefaultTemplate
  }

  /** A name without a dot is its own last segment. */
  lemma {:induction false} NoDotIsWholeName(name: string)
    requires '.' !in name
    ensures LastSegment(name) == name
    decreases |name|
  {
    if name != [] {
      var init := name[..|name| - 1];
      assert name[|name| - 1] in name;
      assert '.' !in init by {
        forall k | 0 <= k < |init| ensures init[k] != '.' { assert init[k] == name[k]; }
      }
      NoDotIsWholeName(init);
      assert init + [name[|name| - 1]] == name;
    }
  }

  /** The last segment of a name with a dot is what follows the last dot. */
  lemma {:induction false} LastSegmentAfterDot(prefix: string, ext: string)
    requires '.' !in ext
    ensures LastSegment(prefix + "." + ext) == ext
    decreases |ext|
  {
    var s := prefix + "." + ext;
    if ext == [] {
      assert s[|s| - 1] == '.';
    } else {
      var init, last := ext[..|ext| - 1], ext[|ext| - 1];
      assert s[|s| - 1] == last && last != '.';
      assert s[..|s| - 1] == prefix + "." + init;
      assert '.' !in init by {
        forall k | 0 <= k < |init| ensures init[k] != '.' { assert init[k] == ext[k]; }
      }
      LastSegmentAfterDot(prefix, init);
      assert init + [last] == ext;
    }
  }

  /** Only the segment after the last dot decides: whatever precedes that dot makes no difference. */
  lemma OnlyLastSegmentCounts(prefix: string, ext: string)
    requires '.' !in ext
    ensures LastSegment(prefix + "." + ext) == ext
    ensures AssetFileName(prefix + "." + ext) == AssetFileName(ext)
  {
    LastSegmentAfterDot(prefix, ext);
    NoDotIsWholeName(ext);
  }

  /** The three outcomes, with the image test taking precedence over the css test. */
  lemma AssetTemplateChoice(name: string)
    ensures IsImageExtension(LastSegment(name)) ==> AssetFileName(name) == ImageTemplate
    ensures !IsImageExtension(LastSegment(name)) && IsCssExtension(LastSegment(name)) ==> AssetFileName(name) == CssTemplate
    ensures !IsImageExtension(LastSegment(name)) && !IsCssExtension(LastSegment(name)) ==> AssetFileName(name) == DefaultTemplate
  {
  }

  /** An upper-case image extension is an image. */
  lemma UpperCaseImageExample()
    ensures AssetFileName("logo.PNG") == ImageTemplate
  {
    OnlyLastSegmentCounts("logo", "PNG");
    assert "logo" + "." + "PNG" == "logo.PNG";
    assert MatchesAt("PNG", ImagePatterns[0], 0);
  }

  /** The match is unanchored: an extension that merely contains "svg" is an image. */
  lemma UnanchoredImageExample()
    ensures AssetFileName("icons.svgz") == ImageTemplate
  {
    OnlyLastSegmentCounts("icons", "svgz");
    assert "icons" + "." + "svgz" == "icons.svgz";
    assert MatchesAt("svgz", ImagePatterns[3], 0);
  }

  /** No alternative of the image test occurs in "css": the three-letter ones differ from it in
      the first letter, and the longer ones do not fit. */
  lemma CssIsNotAnImage()
    ensures !IsImageExtension("css")
  {
    forall i | 0 <= i < |ImagePatterns|
      ensures !ContainsIgnoreCase("css", ImagePatterns[i])
    {
      var p := ImagePatterns[i];
      assert p[0] != 'c' && p[0] != 'C';
      forall j | 0 <= j <= |"css"| - |p|
        ensures !MatchesAt("css", p, j)
      {
        assert j == 0;
        assert "css"[j..j + |p|][0] == 'c';
      }
    }
  }

  /** A style sheet goes under `assets/css/`. */
  lemma CssExample()
    ensures AssetFileName("index.css") == CssTemplate
  {
    OnlyLastSegmentCounts("index", "css");
    assert "index" + "." + "css" == "index.css";
    CssIsNotAnImage();
    assert MatchesAt("css", "css", 0);
  }
}
