/**
 * The one rendering rule with logic in it: a message text is shown as an
 * image exactly when it looks like an image URL.
 */
module Render {

  /** JavaScript `s.startsWith(p)`: `p` fits and matches character by
      character from the start. */
  predicate StartsWith(s: string, p: string)
    ensures StartsWith(s, p) <==> |p| <= |s| && forall i :: 0 <= i < |p| ==> s[i] == p[i]
  {
    |p| <= |s| && s[..|p|] == p
  }

  /** JavaScript `s.endsWith(x)`: `x` fits and matches character by
      character up to the end. */
  predicate EndsWith(s: string, x: string)
    ensures EndsWith(s, x) <==> |x| <= |s| && forall i :: 0 <= i < |x| ==> s[|s| - |x| + i] == x[i]
  {
    |x| <= |s| && s[|s| - |x|..] == x
  }

  const URL_PREFIX := "http"
  const IMAGE_SUFFIXES := [".png", ".jpg", ".jpeg", ".gif"]

  /** One of the four `endsWith` tests of the image rule. */
  predicate HasImageExtension(text: string)
  {
    EndsWith(text, ".png") || EndsWith(text, ".jpg") ||
    EndsWith(text, ".jpeg") || EndsWith(text, ".gif")
  }

  /** An extension starting with '.' cannot overlap the prefix "http". */
  lemma ExtensionAfterPrefix(text: string, x: string)
    requires StartsWith(text, URL_PREFIX) && EndsWith(text, x)
    requires |x| > 0 && x[0] == '.'
    ensures |text| >= |URL_PREFIX| + |x|
  {
    var k := |text| - |x|;
    assert text[k] == '.';
    assert forall i :: 0 <= i < |URL_PREFIX| ==> URL_PREFIX[i] != '.';
  }

  lemma ImageUrlLength(text: string)
    ensures StartsWith(text, URL_PREFIX) && HasImageExtension(text) ==> |text| >= |URL_PREFIX| + 4
  {
    if StartsWith(text, URL_PREFIX) {
      if EndsWith(text, ".png") { ExtensionAfterPrefix(text, ".png"); }
      if EndsWith(text, ".jpg") { ExtensionAfterPrefix(text, ".jpg"); }
      if EndsWith(text, ".jpeg") { ExtensionAfterPrefix(text, ".jpeg"); }
      if EndsWith(text, ".gif") { ExtensionAfterPrefix(text, ".gif"); }
    }
  }

  /** The test that picks `<img>` over plain text; case-sensitive, and any
      text starting with "http" qualifies, "https" included. The prefix
      and the extension never overlap, so an image URL is at least
      "http" plus four characters long. */
  predicate IsImageUrl(text: string)
    ensures IsImageUrl(text) ==> |text| >= |URL_PREFIX| + 4 && text[0] == 'h'
  {
    ImageUrlLength(text);
    StartsWith(text, URL_PREFIX) && HasImageExtension(text)
  }

  lemma StartsWithIff(s: string, p: string)
    ensures StartsWith(s, p) <==> exists rest :: s == p + rest
  {
    if StartsWith(s, p) {
      assert s == p + s[|p|..];
    }
  }

  lemma EndsWithIff(s: string, x: string)
    ensures EndsWith(s, x) <==> exists stem :: s == stem + x
  {
    if EndsWith(s, x) {
      assert s == s[..|s| - |x|] + x;
    }
    forall stem | s == stem + x
      ensures EndsWith(s, x)
    {
      assert s[|s| - |x|..] == x;
    }
  }

  lemma HasImageExtensionIff(text: string)
    ensures HasImageExtension(text) <==>
      exists k :: 0 <= k < |IMAGE_SUFFIXES| && EndsWith(text, IMAGE_SUFFIXES[k])
  {
    assert IMAGE_SUFFIXES[0] == ".png" && IMAGE_SUFFIXES[1] == ".jpg";
    assert IMAGE_SUFFIXES[2] == ".jpeg" && IMAGE_SUFFIXES[3] == ".gif";
  }

  /** The image test stated by composition: "http" followed by anything,
      and something followed by one of the four image extensions. */
  lemma IsImageUrlIff(text: string)
    ensures IsImageUrl(text) <==>
      (exists rest :: text == URL_PREFIX + rest) &&
      (exists k :: 0 <= k < |IMAGE_SUFFIXES| && exists stem :: text == stem + IMAGE_SUFFIXES[k])
  {
    StartsWithIff(text, URL_PREFIX);
    forall k | 0 <= k < |IMAGE_SUFFIXES| {
      EndsWithIff(text, IMAGE_SUFFIXES[k]);
    }
    HasImageExtensionIff(text);
  }

  /** Texts the rule draws as images, "httpfoo.gif" among them. */
  lemma IsImageUrlExamples()
    ensures IsImageUrl("http://x/y.png")
    ensures IsImageUrl("https://cdn/a.jpeg")
    ensures IsImageUrl("httpfoo.gif")
  {
    assert "http://x/y.png"[..4] == "http";
    assert "http://x/y.png"[10..] == ".png";
    assert "https://cdn/a.jpeg"[..4] == "http";
    assert "https://cdn/a.jpeg"[13..] == ".jpeg";
    assert "httpfoo.gif"[..4] == "http";
    assert "httpfoo.gif"[7..] == ".gif";
  }

  /** Texts the rule draws as plain text: the test is case-sensitive and
      needs both the prefix and the extension. */
  lemma IsImageUrlCounterexamples()
    ensures !IsImageUrl("http://x/y.PNG")
    ensures !IsImageUrl("ftp://x/y.gif")
    ensures !IsImageUrl("http://x/y.pdf")
  {
    assert "http://x/y.PNG"[10..][1] == 'P';
    assert "http://x/y.PNG"[11..][0] == 'P';
    assert "http://x/y.PNG"[9..][0] == 'y';
    assert "ftp://x/y.gif"[..4][0] == 'f';
    assert "http://x/y.pdf"[10..][1] == 'p' && "http://x/y.pdf"[10..][2] == 'd';
    assert "http://x/y.pdf"[11..][0] == 'p';
    assert "http://x/y.pdf"[9..][0] == 'y';
  }
}
