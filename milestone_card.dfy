/** A milestone card of the Andolan timeline
    (frontend/src/pages/andolan-timeline-page/components/MilestoneCard.jsx):
    the image viewer's index state, the category icon and colour lookups and
    the image-count thresholds of the gallery grid. */
module MilestoneCard {
  import ContentModal

  // ------------------------------------------------------------ navigation

  /** `handleNextImage`: the last image wraps to the first, any other index
      moves one on. */
  function NextImage(i: int, n: nat): (r: int)
    ensures 0 <= i < n ==> 0 <= r < n
    ensures i == n - 1 ==> r == 0
    ensures i != n - 1 ==> r == i + 1
  {
    if i == n - 1 then 0 else i + 1
  }

  /** `handlePrevImage`: the first image wraps to the last, any other index
      moves one back. */
  function PrevImage(i: int, n: nat): (r: int)
    ensures 0 <= i < n ==> 0 <= r < n
    ensures i == 0 ==> r == n - 1
    ensures i != 0 ==> r == i - 1
  {
    if i == 0 then n - 1 else i - 1
  }

  /** Previous after next, and next after previous, restore the index. */
  lemma PrevNextInverse(i: int, n: nat)
    requires 0 <= i < n
    ensures PrevImage(NextImage(i, n), n) == i
    ensures NextImage(PrevImage(i, n), n) == i
  {
  }

  /** On every index of the gallery the card walks its images exactly as the
      content modal's viewer does. */
  lemma SameWalkAsContentModal(i: int, n: nat)
    requires 0 <= i < n
    ensures NextImage(i, n) == ContentModal.Next(i, n)
    ensures PrevImage(i, n) == ContentModal.Prev(i, n)
  {
  }

  /** The card's image viewer. */
  class CardViewer {
    const images: seq<string>
    var selected: int
    var isOpen: bool

    /** The index points at an image. */
    predicate Valid()
      reads this
    {
      0 <= selected < |images|
    }

    constructor(images: seq<string>)
      ensures this.images == images && selected == 0 && !isOpen
      ensures images != [] ==> Valid()
    {
      this.images := images;
      selected := 0;
      isOpen := false;
    }

    /** `handleImageClick(index)`: shows that image full size. */
    method ImageClick(index: int)
      modifies this
      ensures selected == index && isOpen
      ensures Valid() <==> 0 <= index < |images|
    {
      selected := index;
      isOpen := true;
    }

    method NextClick()
      modifies this
      ensures selected == NextImage(old(selected), |images|) && isOpen == old(isOpen)
      ensures old(Valid()) ==> Valid()
    {
      selected := NextImage(selected, |images|);
    }

    method PrevClick()
      modifies this
      ensures selected == PrevImage(old(selected), |images|) && isOpen == old(isOpen)
      ensures old(Valid()) ==> Valid()
    {
      selected := PrevImage(selected, |images|);
    }

    /** A click on the backdrop closes the viewer and keeps the index. */
    method BackdropClick()
      modifies this
      ensures !isOpen && selected == old(selected)
    {
      isOpen := false;
    }
  }

  // ------------------------------------------------------------- categories

  const Categories: seq<string> := ["achievements", "programs", "partnerships", "policy changes", "upcoming projects"]

  /** `getCategoryIcon`: the icon of a known category, 'Calendar' otherwise. */
  function CategoryIcon(category: string): (r: string)
    ensures category !in Categories ==> r == "Calendar"
    ensures category in Categories ==> r != "Calendar"
  {
    var icons := map["achievements" := "Trophy", "programs" := "BookOpen", "partnerships" := "Handshake",
                     "policy changes" := "FileText", "upcoming projects" := "Rocket"];
    if category in icons then icons[category] else "Calendar"
  }

  /** `getCategoryColor`: the colour of a known category, 'text-primary'
      otherwise; 'programs' shares the default colour. */
  function CategoryColor(category: string): (r: string)
    ensures category !in Categories ==> r == "text-primary"
    ensures r == "text-primary" <==> category !in Categories || category == "programs"
  {
    var colours := map["achievements" := "text-success", "programs" := "text-primary", "partnerships" := "text-secondary",
                       "policy changes" := "text-warning", "upcoming projects" := "text-error"];
    if category in colours then colours[category] else "text-primary"
  }

  /** Known categories are told apart by their icons. */
  lemma IconsDistinct(a: string, b: string)
    requires a in Categories && b in Categories && a != b
    ensures CategoryIcon(a) != CategoryIcon(b)
  {
  }

  // ------------------------------------------------------------ grid counts

  /** The gallery block is shown only with at least one image. */
  predicate ShowsGallery(n: nat) {
    n > 0
  }

  /** The prev/next controls appear only with more than one image. */
  predicate ShowsNavigation(n: nat) {
    n > 1
  }

  /** The '+N more' tile: shown with more than four images, counting those
      past the fourth. */
  function MoreCount(n: nat): (r: nat)
    ensures r > 0 <==> n > 4
    ensures n > 4 ==> r == n - 4
  {
    if n > 4 then n - 4 else 0
  }

  /** Image `index` of `n` is hidden on small screens. */
  predicate HiddenOnMobile(n: nat, index: nat) {
    n > 4 && index >= 4
  }

  /** The images shown on small screens. */
  function MobileVisible(n: nat): (r: nat)
    ensures r <= 4 && r <= n
  {
    if n > 4 then 4 else n
  }

  /** On small screens the visible images and the '+N more' tile account for
      every image, and the tile opens the first hidden one. */
  lemma MobileAccountsForAll(n: nat)
    ensures MobileVisible(n) + MoreCount(n) == n
    ensures forall i :: 0 <= i < n ==> (HiddenOnMobile(n, i) <==> i >= MobileVisible(n))
    ensures MoreCount(n) > 0 ==> HiddenOnMobile(n, 4) && 4 < n
  {
  }

  /** The 'View All' button: shown with more than six images. */
  predicate ShowsViewAll(n: nat) {
    n > 6
  }

  /** Every button that opens the viewer opens it on an image the card has:
      a grid image, the '+N more' tile (index 4) and 'View All' (index 0). */
  lemma OpenersInRange(n: nat, index: nat)
    requires index < n || (MoreCount(n) > 0 && index == 4) || (ShowsViewAll(n) && index == 0)
    ensures index < n
  {
  }

  /** The navigation controls are shown exactly when next changes the image. */
  lemma NavigationMovesIff(n: nat, i: int)
    requires 0 <= i < n
    ensures ShowsNavigation(n) <==> NextImage(i, n) != i
  {
  }
}
