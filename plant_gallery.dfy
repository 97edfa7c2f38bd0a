/** The plant gallery: the list of images offered, the image shown and
    whether thumbnails appear. */
module PlantGallery {
  import opened Common
  import Seqs

  /** The stock photo used when a plant has no image at all. */
  const DefaultImage: string :=
    "https://images.unsplash.com/photo-1592150621744-aca64f48394a?ixlib=rb-4.0.3&auto=format&fit=crop&w=1920&h=600&q=80"

  /** A value JavaScript treats as true: present and not empty. */
  predicate Given(s: Option<string>) {
    s.Some? && s.value != ""
  }

  function Differs(main: string): string -> bool {
    (img: string) => img != main
  }

  /** `allImages`: the main image followed by the other additional images, or
      the additional images, or the stock photo. */
  function AllImages(mainImage: Option<string>, additionalImages: seq<string>): (r: seq<string>)
    ensures |r| >= 1
    ensures Given(mainImage) ==>
              && r[0] == mainImage.value && mainImage.value !in r[1..]
              && Seqs.IsSubsequence(r[1..], additionalImages)
              && forall img :: img in r[1..] <==> img in additionalImages && img != mainImage.value
    ensures !Given(mainImage) && additionalImages != [] ==> r == additionalImages
    ensures !Given(mainImage) && additionalImages == [] ==> r == [DefaultImage]
  {
    if Given(mainImage) then
      var others := Seqs.Filter(additionalImages, Differs(mainImage.value));
      Seqs.FilterIsSubsequence(additionalImages, Differs(mainImage.value));
      assert ([mainImage.value] + others)[1..] == others;
      [mainImage.value] + others
    else if |additionalImages| > 0 then additionalImages
    else [DefaultImage]
  }

  /** `activeImage || allImages[0]` */
  function ShownImage(activeImage: Option<string>, allImages: seq<string>): (shown: string)
    requires |allImages| >= 1
    ensures Given(activeImage) ==> shown == activeImage.value
    ensures !Given(activeImage) ==> shown == allImages[0]
  {
    if Given(activeImage) then activeImage.value else allImages[0]
  }

  /** `allImages.length > 1` */
  predicate ShowsThumbnails(allImages: seq<string>) {
    |allImages| > 1
  }

  /** On first display the active image is the main image, so the image
      shown is the first of the list. */
  lemma FirstDisplayShowsFirstImage(mainImage: Option<string>, additionalImages: seq<string>)
    ensures var all := AllImages(mainImage, additionalImages);
            ShownImage(mainImage, all) == all[0]
  {
  }

  /** With a main image, thumbnails appear exactly when some additional image
      differs from it; repeating the main image among the additional ones
      does not add a thumbnail. */
  lemma ThumbnailsNeedAnotherImage(main: string, additionalImages: seq<string>)
    requires main != ""
    ensures ShowsThumbnails(AllImages(Some(main), additionalImages)) <==>
              exists i :: 0 <= i < |additionalImages| && additionalImages[i] != main
  {
    var r := AllImages(Some(main), additionalImages);
    if exists i :: 0 <= i < |additionalImages| && additionalImages[i] != main {
      var i :| 0 <= i < |additionalImages| && additionalImages[i] != main;
      assert additionalImages[i] in r[1..];
    }
    if ShowsThumbnails(r) {
      assert r[1] in r[1..];
    }
  }

  /** Without a main image, thumbnails appear exactly when there are at least
      two additional images. */
  lemma ThumbnailsWithoutMainImage(additionalImages: seq<string>)
    ensures ShowsThumbnails(AllImages(None, additionalImages)) <==> |additionalImages| >= 2
  {
  }
}
