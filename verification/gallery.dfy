/**
 * The gallery page (app/gallery/page.tsx): the fetched image list shown as a paginated
 * grid, a paginated bento grid or one unpaginated "jazz" wall, and a modal that steps
 * through the images with wrap-around. React state setters become field assignments.
 */
module Gallery {
  import opened Wrappers
  import Images

  type ImageData = Images.ImageEntry

  datatype Layout = Grid | Bento | Jazz

  /** IMAGES_PER_PAGE: a 2x3 grid below the lg breakpoint, 3x3 above. */
  function PageSize(isMobile: bool): nat {
    if isMobile then 6 else 9
  }

  const MobileBreakpoint := 1024
  const BentoPerPage := 9

  /** Math.ceil(n / k). */
  function TotalPages(n: nat, k: nat): (t: nat)
    requires k > 0
    ensures n == 0 <==> t == 0
    ensures n > 0 ==> (t - 1) * k < n <= t * k
  {
    var q := (n + k - 1) / k;
    assert n + k - 1 == q * k + (n + k - 1) % k;
    q
  }

  /** The index Array.prototype.slice starts or stops at for a possibly negative `i`. */
  function Clamp(i: int, n: nat): (c: nat)
    ensures c <= n
    ensures 0 <= i <= n ==> c == i
  {
    if i < 0 then (if n + i < 0 then 0 else n + i) else if i > n then n else i
  }

  /** Array.prototype.slice(start, end). */
  function Slice<T>(xs: seq<T>, start: int, end: int): (r: seq<T>)
    ensures |r| <= |xs|
  {
    var s := Clamp(start, |xs|);
    var e := Clamp(end, |xs|);
    if s < e then xs[s..e] else []
  }

  /** The images of page `page` (from 1) at `k` per page. */
  function Page<T>(xs: seq<T>, page: int, k: nat): seq<T> {
    Slice(xs, (page - 1) * k, (page - 1) * k + k)
  }

  /**
   * A page shows at most `k` images, in list order, starting at the page's offset: all the
   * images left from there when fewer than `k` remain.
   */
  lemma PageContents<T>(xs: seq<T>, page: int, k: nat)
    requires page >= 1 && k > 0
    ensures var p := Page(xs, page, k); var start := (page - 1) * k;
      && |p| <= k
      && (forall j :: 0 <= j < |p| ==> start + j < |xs| && p[j] == xs[start + j])
      && (start < |xs| ==> |p| == (if |xs| - start < k then |xs| - start else k))
  {
    var start := (page - 1) * k;
    assert 0 <= start;
  }

  /** a * k < b * k means a < b, for positive k. */
  lemma ScaledLess(a: int, b: int, k: nat)
    requires k > 0 && a * k < b * k
    ensures a < b
  {
  }

  /** Every page up to TotalPages shows at least one image. */
  lemma PagesNonEmpty<T>(xs: seq<T>, page: int, k: nat)
    requires k > 0 && 1 <= page <= TotalPages(|xs|, k)
    ensures |Page(xs, page, k)| > 0
  {
    var t := TotalPages(|xs|, k);
    assert (page - 1) * k <= (t - 1) * k by {
      assert (t - page) * k >= 0;
    }
    PageContents(xs, page, k);
  }

  /** The pages partition the list: image i appears on page i / k + 1, at slot i % k. */
  lemma EveryImageOnItsPage<T>(xs: seq<T>, k: nat, i: nat)
    requires k > 0 && i < |xs|
    ensures 1 <= i / k + 1 <= TotalPages(|xs|, k)
    ensures var p := Page(xs, i / k + 1, k); i % k < |p| && p[i % k] == xs[i]
  {
    var t := TotalPages(|xs|, k);
    var q := i / k;
    var r := i % k;
    assert i == q * k + r;
    ScaledLess(q, t, k);
    assert (q + 1 - 1) * k == q * k;
    PageContents(xs, q + 1, k);
  }

  /** Array.prototype.findIndex by id: the first image with that id, or -1. */
  function FindIndex(images: seq<ImageData>, id: nat): (i: int)
    ensures -1 <= i < |images|
    ensures i >= 0 ==> images[i].id == id && forall j :: 0 <= j < i ==> images[j].id != id
    ensures i == -1 ==> forall j :: 0 <= j < |images| ==> images[j].id != id
  {
    if images == [] then -1
    else if images[0].id == id then 0
    else
      var rest := FindIndex(images[1..], id);
      if rest == -1 then -1 else rest + 1
  }

  predicate UniqueIds(images: seq<ImageData>) {
    forall i, j :: 0 <= i < j < |images| ==> images[i].id != images[j].id
  }

  /**
   * goToNextImage: `(currentIndex + 1) % images.length`. An empty list makes that NaN and
   * the selection undefined; an id not in the list gives index 0.
   */
  function NextImage(images: seq<ImageData>, selected: Option<ImageData>): (r: Option<ImageData>)
    ensures selected.None? || images == [] ==> r.None?
    ensures selected.Some? && images != [] ==> r.Some? && r.value in images
    ensures selected.Some? && FindIndex(images, selected.value.id) == -1 && images != [] ==> r == Some(images[0])
  {
    if selected.None? || images == [] then None
    else Some(images[(FindIndex(images, selected.value.id) + 1) % |images|])
  }

  /**
   * goToPrevImage: from index 0 to the last image, otherwise one back. An id not in the
   * list gives index -2, and `images[-2]` is undefined.
   */
  function PrevImage(images: seq<ImageData>, selected: Option<ImageData>): (r: Option<ImageData>)
    ensures selected.None? ==> r.None?
    ensures selected.Some? && FindIndex(images, selected.value.id) == -1 ==> r.None?
    ensures r.Some? ==> r.value in images
  {
    if selected.None? then None
    else
      var i := FindIndex(images, selected.value.id);
      if i == 0 then Some(images[|images| - 1])
      else if i - 1 < 0 then None
      else Some(images[i - 1])
  }

  /** With distinct ids, the image at position i steps to position i + 1, and the last to the first. */
  lemma NextFromPosition(images: seq<ImageData>, i: nat)
    requires UniqueIds(images) && i < |images|
    ensures NextImage(images, Some(images[i])) == Some(images[if i + 1 == |images| then 0 else i + 1])
  {
    FindsOwnPosition(images, i);
    WrapAround(i, |images|);
  }

  /** With distinct ids, looking up an image's id finds its own position. */
  lemma FindsOwnPosition(images: seq<ImageData>, i: nat)
    requires UniqueIds(images) && i < |images|
    ensures FindIndex(images, images[i].id) == i
  {
  }

  lemma WrapAround(i: nat, n: nat)
    requires i < n
    ensures (i + 1) % n == if i + 1 == n then 0 else i + 1
  {
  }

  /** With distinct ids, the image at position i steps back to i - 1, and the first to the last. */
  lemma PrevFromPosition(images: seq<ImageData>, i: nat)
    requires UniqueIds(images) && i < |images|
    ensures PrevImage(images, Some(images[i])) == Some(images[if i == 0 then |images| - 1 else i - 1])
  {
    FindsOwnPosition(images, i);
  }

  /** With distinct ids, next then previous, or previous then next, returns to the image shown. */
  lemma NextPrevRoundTrip(images: seq<ImageData>, i: nat)
    requires UniqueIds(images) && i < |images|
    ensures PrevImage(images, NextImage(images, Some(images[i]))) == Some(images[i])
    ensures NextImage(images, PrevImage(images, Some(images[i]))) == Some(images[i])
  {
    NextFromPosition(images, i);
    PrevFromPosition(images, i);
    var n := if i + 1 == |images| then 0 else i + 1;
    var p := if i == 0 then |images| - 1 else i - 1;
    PrevFromPosition(images, n);
    NextFromPosition(images, p);
  }

  const BentoPattern: seq<string> := [
    "col-span-2 row-span-2",
    "col-span-1 row-span-1",
    "col-span-1 row-span-1",
    "col-span-1 row-span-1",
    "col-span-2 row-span-1",
    "col-span-3 row-span-1",
    "col-span-1 row-span-2",
    "col-span-2 row-span-1",
    "col-span-2 row-span-1"
  ]

  /** The tiles of a bento page: each image with `bentoPattern[index % bentoPattern.length]`. */
  function BentoTiles(page: seq<ImageData>): (r: seq<(ImageData, string)>)
    ensures |r| == |page|
    ensures forall j :: 0 <= j < |r| ==> r[j].0 == page[j] && r[j].1 == BentoPattern[j % |BentoPattern|]
  {
    seq(|page|, j requires 0 <= j < |page| => (page[j], BentoPattern[j % |BentoPattern|]))
  }

  /**
   * A bento page holds at most nine images, so every tile gets the pattern entry of its
   * own slot and the first tile is always the large square.
   */
  lemma BentoPageUsesPatternOnce(images: seq<ImageData>, page: int, j: nat)
    requires page >= 1
    requires j < |BentoTiles(Page(images, page, BentoPerPage))|
    ensures BentoTiles(Page(images, page, BentoPerPage))[j].1 == BentoPattern[j]
    ensures j == 0 ==> BentoTiles(Page(images, page, BentoPerPage))[j].1 == "col-span-2 row-span-2"
  {
    PageContents(images, page, BentoPerPage);
  }

  class GalleryView {
    var images: seq<ImageData>
    var selected: Option<ImageData>
    var currentPage: int
    var isMobile: bool
    var layout: Layout

    /** The page number stays between 1 and the number of grid pages (1 when there are none). */
    ghost predicate PageInRange()
      reads this
    {
      1 <= currentPage && (currentPage == 1 || currentPage <= TotalPages(|images|, PageSize(isMobile)))
    }

    constructor ()
      ensures images == [] && selected.None? && currentPage == 1 && !isMobile && layout == Grid
      ensures PageInRange()
    {
      images := [];
      selected := None;
      currentPage := 1;
      isMobile := false;
      layout := Grid;
    }

    /** currentImages: one page of the grid, or the whole list for the other layouts. */
    function CurrentImages(): (r: seq<ImageData>)
      reads this
      ensures layout != Grid ==> r == images
    {
      if layout == Grid then Page(images, currentPage, PageSize(isMobile)) else images
    }

    /** With the page in range the grid shows at most one page of images, and never an empty page of a non-empty list. */
    lemma GridPageShown()
      requires layout == Grid && PageInRange()
      ensures |CurrentImages()| <= PageSize(isMobile)
      ensures images != [] ==> CurrentImages() != []
    {
      PageContents(images, currentPage, PageSize(isMobile));
      if images != [] {
        PagesNonEmpty(images, currentPage, PageSize(isMobile));
      }
    }

    /** fetchImages: the answer replaces the list; a failed fetch leaves it. */
    method Load(data: Option<seq<ImageData>>)
      modifies this`images
      ensures images == (if data.Some? then data.value else old(images))
      ensures old(currentPage) == 1 ==> PageInRange()
    {
      if data.Some? {
        images := data.value;
      }
    }

    method GoToNextPage()
      modifies this`currentPage
      ensures currentPage == (if old(currentPage) < TotalPages(|images|, PageSize(isMobile))
                              then old(currentPage) + 1 else old(currentPage))
      ensures old(PageInRange()) ==> PageInRange()
    {
      if currentPage < TotalPages(|images|, PageSize(isMobile)) {
        currentPage := currentPage + 1;
      }
    }

    method GoToPrevPage()
      modifies this`currentPage
      ensures currentPage == (if old(currentPage) > 1 then old(currentPage) - 1 else old(currentPage))
      ensures old(PageInRange()) ==> PageInRange()
    {
      if currentPage > 1 {
        currentPage := currentPage - 1;
      }
    }

    /** A click on a tile opens the modal on that image. */
    method Open(image: ImageData)
      modifies this`selected
      ensures selected == Some(image)
    {
      selected := Some(image);
    }

    /** Closing the modal clears the selection. */
    method Close()
      modifies this`selected
      ensures selected.None?
    {
      selected := None;
    }

    method GoToNextImage()
      modifies this`selected
      ensures selected == NextImage(images, old(selected))
    {
      selected := NextImage(images, selected);
    }

    method GoToPrevImage()
      modifies this`selected
      ensures selected == PrevImage(images, old(selected))
    {
      selected := PrevImage(images, selected);
    }

    /** A layout button; the reset effect runs only when the layout actually changes. */
    method SetLayout(l: Layout)
      modifies this`layout, this`currentPage
      ensures layout == l
      ensures currentPage == (if l != old(layout) then 1 else old(currentPage))
      ensures old(PageInRange()) ==> PageInRange()
    {
      if l != layout {
        layout := l;
        currentPage := 1;
      }
    }

    /** checkMobile on mount and resize; crossing the breakpoint resets the page. */
    method Resize(innerWidth: int)
      modifies this`isMobile, this`currentPage
      ensures isMobile == (innerWidth < MobileBreakpoint)
      ensures currentPage == (if isMobile != old(isMobile) then 1 else old(currentPage))
      ensures old(PageInRange()) ==> PageInRange()
    {
      var mobile := innerWidth < MobileBreakpoint;
      if mobile != isMobile {
        isMobile := mobile;
        currentPage := 1;
      }
    }
  }
}
