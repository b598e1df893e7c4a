/**
 * The Xbox dashboard carousel (XboxDashboard). A fixed table of five slides,
 * the index of the active slide, and two containers of navigation buttons:
 * the buttons of the slides up to and including the active one sit on the
 * left, the rest on the right. Clicking a button makes its slide active,
 * scrolls the viewport to that slide, and moves the buttons between the two
 * containers.
 */
module Carousel {

  datatype Slide = Slide(id: string, title: string, bgClass: string)

  /** The slides, in display order. */
  const Slides: seq<Slide> := [
    Slide("marketplace", "1 | MARKETPLACE", "marketplace-slide"),
    Slide("xboxlive", "2 | XBOXLIVE", "xboxlive-slide"),
    Slide("games", "3 | GAMES", "games-slide"),
    Slide("media", "4 | MEDIA", "media-slide"),
    Slide("system", "5 | SYSTEM", "system-slide")
  ]

  /** The dashboard opens on "games". */
  const InitialIndex: int := 2

  /** A navigation button: the id of its slide and the slide index its click handler passes on. */
  datatype Button = Button(slideId: string, target: int)

  /** One button per slide, the i-th issuing index `first + i`. */
  function SlideButtons(ss: seq<Slide>, first: int): seq<Button> {
    seq(|ss|, i requires 0 <= i < |ss| => Button(ss[i].id, first + i))
  }

  /** The left container as first rendered: the first three slides, issuing 0, 1, 2. */
  const InitialLeft: seq<Button> := SlideButtons(Slides[..3], 0)

  /** The right container as first rendered: the last two slides, issuing 3, 4. */
  const InitialRight: seq<Button> := SlideButtons(Slides[3..], 3)

  /** Every button in document order: left container first, then right. */
  function AllButtons(): seq<Button> {
    InitialLeft + InitialRight
  }

  /**
   * The layout moveButtons produces: elements 0..index on the left and
   * index+1.. on the right. Index -1 puts everything on the right.
   */
  function Partition<T>(xs: seq<T>, index: int): (r: (seq<T>, seq<T>))
    requires -1 <= index < |xs|
    ensures r.0 + r.1 == xs
    ensures |r.0| == index + 1 && |r.1| == |xs| - index - 1
  {
    (xs[..index + 1], xs[index + 1..])
  }

  /** The horizontal scroll position that shows slide `index` in a viewport `slideWidth` wide. */
  function ScrollOffset(slideWidth: nat, index: int): (offset: int)
    ensures slideWidth > 0 ==> offset % slideWidth == 0 && offset / slideWidth == index
  {
    if slideWidth > 0 then WholeSlides(slideWidth, index); slideWidth * index
    else 0
  }

  /** A whole number of slide widths divides back to the number of slides. */
  lemma WholeSlides(w: int, i: int)
    requires w > 0
    ensures (w * i) % w == 0 && (w * i) / w == i
  {
    var q, r := (w * i) / w, (w * i) % w;
    assert w * i == w * q + r && 0 <= r < w;
    assert w * (i - q) == w * i - w * q;
    ZeroMultiple(w, i - q);
  }

  /** The only multiple of a positive w in [0, w) is 0 times w. */
  lemma ZeroMultiple(w: int, k: int)
    requires w > 0 && 0 <= w * k < w
    ensures k == 0
  {
  }

  /** Each button sits at the position of its slide, carries its slide's id and issues its index. */
  lemma ButtonWiring()
    ensures |AllButtons()| == |Slides|
    ensures forall k :: 0 <= k < |Slides| ==> AllButtons()[k] == Button(Slides[k].id, k)
  {
  }

  /** Every button issues an index inside the slide table. */
  lemma ButtonTargetsInRange(b: Button)
    requires b in AllButtons()
    ensures 0 <= b.target < |Slides|
  {
  }

  /** The layout rendered before any effect runs is the partition at the initial index. */
  lemma InitialLayout()
    ensures Partition(AllButtons(), InitialIndex) == (InitialLeft, InitialRight)
  {
  }

  /** Element k goes left exactly when k <= index, and keeps its place within its group. */
  lemma PartitionPlaces<T>(xs: seq<T>, index: int, k: int)
    requires -1 <= index < |xs|
    requires 0 <= k < |xs|
    ensures k <= index ==> Partition(xs, index).0[k] == xs[k]
    ensures index < k ==> Partition(xs, index).1[k - index - 1] == xs[k]
  {
  }

  /** Re-partitioning a partitioned layout at the same index changes nothing. */
  lemma PartitionStable<T>(xs: seq<T>, index: int)
    requires -1 <= index < |xs|
    ensures var p := Partition(xs, index); Partition(p.0 + p.1, index) == p
  {
  }

  /** With five slides and index 2: [0, 1, 2] on the left and [3, 4] on the right. */
  lemma PartitionScenario()
    ensures Partition([0, 1, 2, 3, 4], 2) == ([0, 1, 2], [3, 4])
  {
    var xs := [0, 1, 2, 3, 4];
    assert xs[..3] == [0, 1, 2];
    assert xs[3..] == [3, 4];
  }

  lemma ScrollOffsetStart(slideWidth: nat)
    ensures ScrollOffset(slideWidth, 0) == 0
  {
  }

  /** Later slides are never scrolled to a smaller offset. */
  lemma ScrollOffsetMonotone(slideWidth: nat, i: int, j: int)
    requires i <= j
    ensures ScrollOffset(slideWidth, i) <= ScrollOffset(slideWidth, j)
  {
  }

  /** In a viewport of positive width, different slides get different offsets. */
  lemma ScrollOffsetDistinct(slideWidth: nat, i: int, j: int)
    requires slideWidth > 0 && i < j
    ensures ScrollOffset(slideWidth, i) < ScrollOffset(slideWidth, j)
  {
  }

  /** The state the dashboard mutates: the active index and the two button containers. */
  class Dashboard {
    var currentIndex: int
    var left: seq<Button>
    var right: seq<Button>

    /** The index names a slide and the containers hold exactly the partition at that index. */
    ghost predicate Valid()
      reads this
    {
      0 <= currentIndex < |AllButtons()| &&
      (left, right) == Partition(AllButtons(), currentIndex)
    }

    /** First render at index 2, followed by the mount-time run of moveButtons. */
    constructor ()
      ensures Valid()
      ensures currentIndex == InitialIndex && left == InitialLeft && right == InitialRight
    {
      currentIndex := InitialIndex;
      left := InitialLeft;
      right := InitialRight;
      new;
      InitialLayout();
      var ok := MoveButtons(currentIndex);
    }

    /**
     * moveButtons: collect the buttons in document order, empty both
     * containers, then append buttons 0..index to the left and the rest to
     * the right. Appending a button that does not exist throws; `ok` is false
     * then, and the containers hold what was appended before the throw.
     */
    method MoveButtons(index: int) returns (ok: bool)
      modifies this`left, this`right
      ensures ok <==> -1 <= index < |old(left + right)|
      ensures ok ==> (left, right) == Partition(old(left + right), index)
      ensures !ok ==> right == [] && left == (if index < 0 then [] else old(left + right))
    {
      var elements := left + right;
      left, right := [], [];
      var i := 0;
      while i <= index
        invariant 0 <= i <= |elements|
        invariant index >= 0 ==> i <= index + 1
        invariant index < 0 ==> i == 0
        invariant left == elements[..i] && right == []
      {
        if i == |elements| {
          return false;
        }
        left := left + [elements[i]];
        i := i + 1;
      }
      i := index + 1;
      while i < |elements|
        invariant index + 1 < 0 ==> i == index + 1 && right == []
        invariant index + 1 >= 0 ==> index + 1 <= i <= |elements| && right == elements[index + 1..i]
        invariant left == elements[..if index < 0 then 0 else index + 1]
      {
        if i < 0 {
          return false;
        }
        right := right + [elements[i]];
        i := i + 1;
      }
      assert right == elements[index + 1..];
      return true;
    }

    /** handleButtonClick: set the active index and scroll the viewport to that slide. */
    method HandleButtonClick(index: int, slideWidth: nat) returns (offset: int)
      modifies this`currentIndex
      ensures currentIndex == index
      ensures offset == ScrollOffset(slideWidth, index)
    {
      currentIndex := index;
      offset := slideWidth * index;
    }

    /**
     * A click on the k-th button from the left, then the effect that re-runs
     * moveButtons because the active index changed.
     */
    method ClickButton(k: nat, slideWidth: nat) returns (offset: int)
      requires Valid()
      requires k < |left + right|
      modifies this
      ensures Valid()
      ensures currentIndex == k && left + right == old(left + right)
      ensures offset == ScrollOffset(slideWidth, k)
    {
      ButtonWiring();
      var button := (left + right)[k];
      var before := currentIndex;
      offset := HandleButtonClick(button.target, slideWidth);
      if currentIndex != before {
        var ok := MoveButtons(currentIndex);
      }
    }
  }
}
