/**
 * The gallery section: a fixed list of images, a row of category buttons, a
 * lightbox that shows one clicked image until it is closed, and a flag that
 * turns on the entry animation once the section has scrolled into view.
 */
module Gallery {

  import opened Optional
  import opened CategoryFilter

  datatype GalleryImage = GalleryImage(id: int, src: string, category: Category, title: string)

  function ImageCategory(image: GalleryImage): Category
  {
    image.category
  }

  /** The images, in display order. */
  const Images: seq<GalleryImage> := [
    GalleryImage(1, "https://images.pexels.com/photos/1571463/pexels-photo-1571463.jpeg?auto=compress&cs=tinysrgb&w=1200",
      Marble, "White Carrara Marble"),
    GalleryImage(2, "https://images.pexels.com/photos/1571461/pexels-photo-1571461.jpeg?auto=compress&cs=tinysrgb&w=1200",
      Marble, "Calacatta Gold"),
    GalleryImage(3, "https://images.pexels.com/photos/1571459/pexels-photo-1571459.jpeg?auto=compress&cs=tinysrgb&w=1200",
      Granite, "Black Galaxy Granite"),
    GalleryImage(4, "https://images.pexels.com/photos/1571457/pexels-photo-1571457.jpeg?auto=compress&cs=tinysrgb&w=1200",
      Granite, "Kashmir White Granite"),
    GalleryImage(5, "https://images.pexels.com/photos/1571456/pexels-photo-1571456.jpeg?auto=compress&cs=tinysrgb&w=1200",
      Marble, "Emperador Dark"),
    GalleryImage(6, "https://images.pexels.com/photos/1571454/pexels-photo-1571454.jpeg?auto=compress&cs=tinysrgb&w=1200",
      Granite, "Absolute Black"),
    GalleryImage(7, "https://images.pexels.com/photos/1571460/pexels-photo-1571460.jpeg?auto=compress&cs=tinysrgb&w=1200",
      Marble, "Marble Workshop"),
    GalleryImage(8, "https://images.pexels.com/photos/1571453/pexels-photo-1571453.jpeg?auto=compress&cs=tinysrgb&w=1200",
      Granite, "Granite Collection")
  ]

  /**
   * The images in the grid: all of them under 'all', otherwise exactly those
   * of the chosen category, in their original order.
   */
  function FilteredImages(images: seq<GalleryImage>, filter: Filter): (r: seq<GalleryImage>)
    ensures filter == All ==> r == images
    ensures forall i :: 0 <= i < |r| ==> r[i] in images && Admits(filter, r[i].category)
    ensures forall i :: 0 <= i < |images| && Admits(filter, images[i].category) ==> images[i] in r
    ensures SubsequenceOf(r, images)
    ensures forall image :: multiset(r)[image] ==
              if Admits(filter, image.category) then multiset(images)[image] else 0
  {
    Displayed(images, ImageCategory, filter)
  }

  /** The marble and the granite grids together hold every image exactly once. */
  lemma ImagesPartition(images: seq<GalleryImage>)
    ensures |FilteredImages(images, Only(Marble))| + |FilteredImages(images, Only(Granite))| == |images|
    ensures multiset(FilteredImages(images, Only(Marble))) +
            multiset(FilteredImages(images, Only(Granite))) == multiset(images)
  {
    KeepPartition(images, ImageCategory);
  }

  /** The categories of the shipped images, in order. */
  ghost predicate ShippedCategories(s: seq<GalleryImage>)
  {
    |s| == 8 &&
    s[0].category == Marble && s[1].category == Marble && s[2].category == Granite &&
    s[3].category == Granite && s[4].category == Marble && s[5].category == Granite &&
    s[6].category == Marble && s[7].category == Granite
  }

  lemma ImagesCategories()
    ensures ShippedCategories(Images)
  {
  }

  /** On the shipped images, 1, 2, 5 and 7 are the marble ones. */
  lemma MarbleImages()
    ensures FilteredImages(Images, Only(Marble)) == [Images[0], Images[1], Images[4], Images[6]]
  {
    ImagesCategories();
    MarbleOfShipped(Images);
  }

  lemma MarbleOfShipped(s: seq<GalleryImage>)
    requires ShippedCategories(s)
    ensures Keep(s, ImageCategory, Marble) == [s[0], s[1], s[4], s[6]]
  {
    var c := ImageCategory;
    assert s[8..] == [];
    assert Keep(s[7..], c, Marble) == [];
    assert Keep(s[6..], c, Marble) == [s[6]];
    assert Keep(s[5..], c, Marble) == [s[6]];
    assert Keep(s[4..], c, Marble) == [s[4], s[6]];
    assert Keep(s[3..], c, Marble) == [s[4], s[6]];
    assert Keep(s[2..], c, Marble) == [s[4], s[6]];
    assert Keep(s[1..], c, Marble) == [s[1], s[4], s[6]];
  }

  /** On the shipped images, 3, 4, 6 and 8 are the granite ones. */
  lemma GraniteImages()
    ensures FilteredImages(Images, Only(Granite)) == [Images[2], Images[3], Images[5], Images[7]]
  {
    ImagesCategories();
    GraniteOfShipped(Images);
  }

  lemma GraniteOfShipped(s: seq<GalleryImage>)
    requires ShippedCategories(s)
    ensures Keep(s, ImageCategory, Granite) == [s[2], s[3], s[5], s[7]]
  {
    var c := ImageCategory;
    assert s[8..] == [];
    assert Keep(s[7..], c, Granite) == [s[7]];
    assert Keep(s[6..], c, Granite) == [s[7]];
    assert Keep(s[5..], c, Granite) == [s[5], s[7]];
    assert Keep(s[4..], c, Granite) == [s[5], s[7]];
    assert Keep(s[3..], c, Granite) == [s[3], s[5], s[7]];
    assert Keep(s[2..], c, Granite) == [s[2], s[3], s[5], s[7]];
    assert Keep(s[1..], c, Granite) == [s[2], s[3], s[5], s[7]];
  }

  /** The section's component state. */
  class GallerySection {

    const images: seq<GalleryImage>
    var filter: Filter
    var selectedImage: Option<GalleryImage>
    var isVisible: bool

    /** Whatever the lightbox shows is one of the gallery's images. */
    ghost predicate Valid()
      reads this
    {
      selectedImage.Some? ==> selectedImage.value in images
    }

    constructor ()
      ensures Valid()
      ensures images == Images
      ensures filter == All && selectedImage == None && !isVisible
    {
      images := Images;
      filter := All;
      selectedImage := None;
      isVisible := false;
    }

    /** The lightbox is rendered exactly when an image is selected. */
    predicate LightboxOpen(): (open: bool)
      reads this
      ensures open <==> selectedImage != None
    {
      selectedImage.Some?
    }

    /** A filter button was clicked: the lightbox and visibility are untouched. */
    method SelectFilter(f: Filter)
      requires Valid()
      modifies this
      ensures Valid()
      ensures filter == f
      ensures selectedImage == old(selectedImage) && isVisible == old(isVisible)
    {
      filter := f;
    }

    /**
     * The image at `index` in the rendered grid was clicked: it is one of the
     * currently filtered images and the lightbox now shows it.
     */
    method ClickImage(index: nat)
      requires Valid()
      requires index < |FilteredImages(images, filter)|
      modifies this
      ensures filter == old(filter) && isVisible == old(isVisible)
      ensures Valid()
      ensures selectedImage == Some(FilteredImages(images, filter)[index])
      ensures LightboxOpen()
      ensures selectedImage.value in FilteredImages(images, filter)
      ensures Admits(filter, selectedImage.value.category)
    {
      var filteredImages := FilteredImages(images, filter);
      var image := filteredImages[index];
      assert image in images && Admits(filter, image.category);
      selectedImage := Some(image);
    }

    /** The lightbox's close button was clicked. */
    method CloseLightbox()
      requires Valid()
      modifies this
      ensures Valid()
      ensures selectedImage == None && !LightboxOpen()
      ensures filter == old(filter) && isVisible == old(isVisible)
    {
      selectedImage := None;
    }

    /**
     * The intersection observer fired: visibility is switched on when the
     * section intersects the viewport and never switched off.
     */
    method ObserveIntersection(isIntersecting: bool)
      requires Valid()
      modifies this
      ensures Valid()
      ensures isVisible == (old(isVisible) || isIntersecting)
      ensures filter == old(filter) && selectedImage == old(selectedImage)
    {
      if isIntersecting {
        isVisible := true;
      }
    }
  }

}
