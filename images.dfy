/** The pure part of `scrape_listing_images`: from the `<img>` elements
    each gallery selector found, keep the distinct avito-hosted,
    non-placeholder sources, in page order, at most eight of them. */
module Images {
  import opened Wrappers
  import opened Text

  /** One `<img>` element: its `src` and `data-src` attributes, either of
      which may be missing. */
  datatype Img = Img(src: Option<string>, dataSrc: Option<string>)

  /** `img.get_attribute("src") or img.get_attribute("data-src") or ""`. */
  function SourceOf(img: Img): (s: string)
    ensures img.src.Some? && img.src.value != "" ==> s == img.src.value
    ensures !(img.src.Some? && img.src.value != "") && img.dataSrc.Some? ==> s == img.dataSrc.value
    ensures !(img.src.Some? && img.src.value != "") && img.dataSrc.None? ==> s == ""
  {
    if img.src.Some? && img.src.value != "" then img.src.value
    else if img.dataSrc.Some? then img.dataSrc.value
    else ""
  }

  /** A source worth keeping: non-empty, from avito, not a placeholder. */
  predicate Wanted(src: string) {
    src != "" && Contains(src, "avito") && !Contains(src, "placeholder")
  }

  /** What the `srcs.append` loop has built after seeing `srcs`: each
      wanted source the first time it appears. */
  function Distinct(srcs: seq<string>): (r: seq<string>)
    ensures |r| <= |srcs|
    decreases |srcs|
  {
    if srcs == [] then []
    else
      var r := Distinct(srcs[..|srcs| - 1]);
      var s := srcs[|srcs| - 1];
      if Wanted(s) && s !in r then r + [s] else r
  }

  /** One more source: appended when wanted and new, otherwise ignored. */
  lemma DistinctStep(srcs: seq<string>, x: string)
    ensures Distinct(srcs + [x]) ==
              if Wanted(x) && x !in Distinct(srcs) then Distinct(srcs) + [x] else Distinct(srcs)
  {
    assert (srcs + [x])[..|srcs|] == srcs;
  }

  /** The position of the first occurrence of `x`. */
  function FirstIndex(srcs: seq<string>, x: string): (i: nat)
    requires x in srcs
    ensures i < |srcs| && srcs[i] == x && forall j | 0 <= j < i :: srcs[j] != x
    decreases |srcs|
  {
    if srcs[0] == x then 0 else 1 + FirstIndex(srcs[1..], x)
  }

  lemma FirstIndexOfPrefix(srcs: seq<string>, y: string, x: string)
    requires x in srcs
    ensures x in srcs + [y] && FirstIndex(srcs + [y], x) == FirstIndex(srcs, x)
  {
    var i := FirstIndex(srcs, x);
    var k := FirstIndex(srcs + [y], x);
    assert (srcs + [y])[i] == x;
    assert srcs[k] == x || k == |srcs|;
  }

  /** The filter keeps exactly the wanted sources, each once, in the order
      of their first appearance. */
  lemma {:induction false} DistinctIsFirstOccurrences(srcs: seq<string>)
    ensures forall x :: x in Distinct(srcs) <==> x in srcs && Wanted(x)
    ensures forall i, j | 0 <= i < j < |Distinct(srcs)| :: Distinct(srcs)[i] != Distinct(srcs)[j]
    ensures forall i, j | 0 <= i < j < |Distinct(srcs)| ::
              FirstIndex(srcs, Distinct(srcs)[i]) < FirstIndex(srcs, Distinct(srcs)[j])
    decreases |srcs|
  {
    if srcs != [] {
      var init := srcs[..|srcs| - 1];
      var s := srcs[|srcs| - 1];
      assert srcs == init + [s];
      DistinctIsFirstOccurrences(init);
      var r := Distinct(init);
      forall x | x in r ensures FirstIndex(srcs, x) == FirstIndex(init, x) {
        FirstIndexOfPrefix(init, s, x);
      }
      if Wanted(s) && s !in r {
        assert s !in init;
        assert FirstIndex(srcs, s) == |init| by {
          assert srcs[FirstIndex(srcs, s)] == s;
        }
        var r' := r + [s];
        forall i, j | 0 <= i < j < |r'| ensures FirstIndex(srcs, r'[i]) < FirstIndex(srcs, r'[j]) {
          assert r'[i] in r;
          if j < |r| {
            assert r'[j] == r[j];
          } else {
            assert FirstIndex(srcs, r'[i]) == FirstIndex(init, r'[i]) < |init|;
          }
        }
      }
    }
  }

  /** `srcs[:8]`. */
  function AtMostEight(srcs: seq<string>): (r: seq<string>)
    ensures |r| <= 8 && |r| <= |srcs| && r == srcs[..|r|]
    ensures |srcs| <= 8 ==> r == srcs
  {
    if |srcs| <= 8 then srcs else srcs[..8]
  }

  /** What `scrape_listing_images` returns once the gallery page is loaded:
      the capped sources of the first selector that yields any, otherwise
      nothing; an empty url yields nothing. */
  function GalleryImages(url: string, found: seq<seq<Img>>): (r: seq<string>)
    ensures |r| <= 8
    ensures forall x | x in r :: Wanted(x)
    ensures url == "" ==> r == []
    decreases |found|
  {
    if url == "" || found == [] then []
    else
      var srcs := Distinct(Sources(found[0]));
      DistinctIsFirstOccurrences(Sources(found[0]));
      if srcs != [] then AtMostEight(srcs) else GalleryImages(url, found[1..])
  }

  function Sources(imgs: seq<Img>): (s: seq<string>)
    ensures |s| == |imgs| && forall k | 0 <= k < |imgs| :: s[k] == SourceOf(imgs[k])
  {
    seq(|imgs|, k requires 0 <= k < |imgs| => SourceOf(imgs[k]))
  }

  /** The inner loop over one selector's elements. */
  method CollectSources(imgs: seq<Img>) returns (srcs: seq<string>)
    ensures srcs == Distinct(Sources(imgs))
  {
    srcs := [];
    var i := 0;
    while i < |imgs|
      invariant 0 <= i <= |imgs|
      invariant srcs == Distinct(Sources(imgs[..i]))
    {
      var src := SourceOf(imgs[i]);
      assert Sources(imgs[..i + 1]) == Sources(imgs[..i]) + [src];
      DistinctStep(Sources(imgs[..i]), src);
      if Wanted(src) && src !in srcs {
        srcs := srcs + [src];
      }
      i := i + 1;
    }
    assert imgs[..i] == imgs;
  }

  /** The selector loop of `scrape_listing_images`, after the page load. */
  method ScrapeListingImages(url: string, found: seq<seq<Img>>) returns (images: seq<string>)
    ensures images == GalleryImages(url, found)
    ensures |images| <= 8
    ensures forall x | x in images :: Wanted(x)
    ensures forall i, j | 0 <= i < j < |images| :: images[i] != images[j]
  {
    if url == "" {
      return [];
    }
    var n := 0;
    while n < |found|
      invariant 0 <= n <= |found|
      invariant GalleryImages(url, found) == GalleryImages(url, found[n..])
    {
      var srcs := CollectSources(found[n]);
      if srcs != [] {
        DistinctIsFirstOccurrences(Sources(found[n]));
        assert found[n..][0] == found[n];
        images := AtMostEight(srcs);
        assert forall k | 0 <= k < |images| :: images[k] == srcs[k];
        return;
      }
      assert found[n..][1..] == found[n + 1..];
      n := n + 1;
    }
    return [];
  }
}
