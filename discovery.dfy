/**
 * Image discovery (`Selector.find_images`): which directory entries are
 * taken as images.
 */
module Discovery {
  import opened Collections

  /** Upper-case ASCII letters fold to lower case; every other character is kept. */
  function LowerChar(c: char): (r: char)
    ensures !('A' <= r <= 'Z')
    ensures 'A' <= c <= 'Z' ==> r as int - 'a' as int == c as int - 'A' as int
    ensures !('A' <= c <= 'Z') ==> r == c
  {
    if 'A' <= c <= 'Z' then (c as int + 32) as char else c
  }

  /** `str.lower()`, restricted to ASCII letters. */
  function Lower(s: string): (r: string)
    ensures |r| == |s|
    ensures forall i :: 0 <= i < |s| ==> r[i] == LowerChar(s[i])
    ensures forall i :: 0 <= i < |r| ==> !('A' <= r[i] <= 'Z')
  {
    seq(|s|, i requires 0 <= i < |s| => LowerChar(s[i]))
  }

  predicate EndsWith(s: string, suffix: string)
  {
    |suffix| <= |s| && s[|s| - |suffix|..] == suffix
  }

  /**
   * An entry is an image when its lower-cased name ends with "jpg" or
   * "png" (the allowed extensions). There is no dot in the test, so
   * "xjpg" counts, and the entry's kind (file or directory) is not checked.
   */
  predicate IsImageName(name: string)
    ensures IsImageName(name) ==> 3 <= |name|
  {
    EndsWith(Lower(name), "jpg") || EndsWith(Lower(name), "png")
  }

  /** The image names of a directory listing, in listing order. */
  function ImageNames(listing: seq<string>): (names: seq<string>)
    ensures forall n :: n in names <==> n in listing && IsImageName(n)
  {
    forall n | n in listing && IsImageName(n)
      ensures n in Filter(IsImageName, listing)
    {
      FilterKeeps(IsImageName, listing, n);
    }
    Filter(IsImageName, listing)
  }

  /** Discovery is positional: the images of two listings one after the other come out one after the other. */
  lemma ImageNamesInListingOrder(a: seq<string>, b: seq<string>)
    ensures ImageNames(a + b) == ImageNames(a) + ImageNames(b)
  {
    FilterAppend(IsImageName, a, b);
  }

  /** The letter case of the extension does not matter: any spelling of "jpg" or "png" at the end is accepted. */
  lemma {:induction false} ExtensionCaseIgnored(stem: string, ext: string)
    requires Lower(ext) == "jpg" || Lower(ext) == "png"
    ensures IsImageName(stem + ext)
  {
    var s := stem + ext;
    assert Lower(s)[|s| - 3..] == Lower(ext);
  }

  /** A listing of one entry yields that entry exactly when it is an image name. */
  lemma ImageNamesOfOne(name: string)
    ensures ImageNames([name]) == if IsImageName(name) then [name] else []
  {
    assert [name][1..] == [];
  }

  /** A listing of two image entries yields both, in listing order. */
  lemma ImagesOfTwo(a: string, b: string)
    requires IsImageName(a) && IsImageName(b)
    ensures ImageNames([a, b]) == [a, b]
  {
    ImageNamesOfOne(a);
    ImageNamesOfOne(b);
    ImageNamesInListingOrder([a], [b]);
    assert [a] + [b] == [a, b];
  }

  /** Two image entries followed by a non-image one: the images come out, in listing order. */
  lemma ImagesOfThree(a: string, b: string, c: string)
    requires IsImageName(a) && IsImageName(b) && !IsImageName(c)
    ensures ImageNames([a, b, c]) == [a, b]
  {
    ImagesOfTwo(a, b);
    assert [a, b, c] == [a, b] + [c];
    ImageNamesOfOne(c);
    ImageNamesInListingOrder([a, b], [c]);
  }

  /** A listing with `a.jpg`, `b.png` and `c.gif` yields exactly the first two. */
  lemma MixedExtensionsExample()
    ensures ImageNames(["a.jpg", "b.png", "c.gif"]) == ["a.jpg", "b.png"]
  {
    assert IsImageName("a.jpg") by {
      assert Lower("a.jpg")[2..] == "jpg";
    }
    assert IsImageName("b.png") by {
      assert Lower("b.png")[2..] == "png";
    }
    assert !IsImageName("c.gif") by {
      assert Lower("c.gif")[2..] == "gif";
    }
    ImagesOfThree("a.jpg", "b.png", "c.gif");
  }
}
