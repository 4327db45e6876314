/** The project carousel: an index over the project cards, clamped by the
    prev/next buttons, driven by clicks, horizontal swipes and resizes, and
    rendered as a horizontal translation of the grid. */
module Carousel {
  import opened Wrappers

  /** The gap added to the first card's rendered width. */
  const CardGap := 32
  /** A swipe must move further than this, in pixels, to page. */
  const SwipeThreshold := 50
  /** Cards visible at once; the last page starts `VisibleCards` from the end. */
  const VisibleCards := 3

  datatype Direction = Prev | Next

  /** The grid's `style.transform`: never written at load time, afterwards
      `translateX(px)`. */
  datatype Transform = Unset | TranslateX(px: int)

  function Abs(x: int): nat {
    if x < 0 then -x else x
  }

  /** The largest index reachable: `maxIndex`, or 0 when there are fewer than
      three cards and `maxIndex` is negative. */
  function Top(maxIndex: int): nat {
    if maxIndex < 0 then 0 else maxIndex
  }

  predicate InRange(index: int, maxIndex: int) {
    0 <= index <= Top(maxIndex)
  }

  /** The index after `scrollProjects(d)`: next moves right only while below
      `maxIndex`, prev moves left only while above 0. */
  function Step(index: int, maxIndex: int, d: Direction): (r: int)
    ensures InRange(index, maxIndex) ==> InRange(r, maxIndex)
    ensures r == index + 1 <==> d.Next? && index < maxIndex
    ensures r == index - 1 <==> d.Prev? && index > 0
    ensures r == index <==> (d.Next? && index >= maxIndex) || (d.Prev? && index <= 0)
  {
    if d.Next? && index < maxIndex then index + 1
    else if d.Prev? && index > 0 then index - 1
    else index
  }

  /** The index after a run of clicks starting from `index`. */
  function Run(index: int, maxIndex: int, ds: seq<Direction>): (r: int)
    requires InRange(index, maxIndex)
    ensures InRange(r, maxIndex)
    decreases |ds|
  {
    if ds == [] then index else Run(Step(index, maxIndex, ds[0]), maxIndex, ds[1..])
  }

  /** `n` clicks on next. */
  function Nexts(n: nat): (ds: seq<Direction>)
    ensures |ds| == n && forall k :: 0 <= k < n ==> ds[k] == Next
  {
    if n == 0 then [] else [Next] + Nexts(n - 1)
  }

  /** From any page `index`, `n` clicks on next reach page
      `min(index + n, Top(maxIndex))`: every later page is reachable and the
      last one is never passed. */
  lemma {:induction false} NextsReach(index: int, maxIndex: int, n: nat)
    requires InRange(index, maxIndex)
    decreases n
    ensures Run(index, maxIndex, Nexts(n)) == if index + n <= Top(maxIndex) then index + n else Top(maxIndex)
  {
    if n > 0 {
      var ds := Nexts(n);
      assert ds[0] == Next && ds[1..] == Nexts(n - 1);
      NextsReach(Step(index, maxIndex, Next), maxIndex, n - 1);
    }
  }

  /** With fewer than three cards nothing ever moves the index off 0. */
  lemma FewCardsStayPut(maxIndex: int, ds: seq<Direction>)
    requires maxIndex <= 0
    ensures Run(0, maxIndex, ds) == 0
  {
  }

  /** The swipe a touch pair makes: right of more than 50px pages back, left of
      more than 50px pages forward, anything else (exactly 50 included) does
      nothing. */
  function SwipeAction(startX: int, endX: int): (r: Option<Direction>)
    ensures r == None <==> Abs(endX - startX) <= SwipeThreshold
    ensures r == Some(Prev) <==> endX - startX > SwipeThreshold
    ensures r == Some(Next) <==> endX - startX < -SwipeThreshold
  {
    var distance := endX - startX;
    if Abs(distance) > SwipeThreshold then
      (if distance > 0 then Some(Prev) else Some(Next))
    else None
  }

  /** The carousel's page state. `cardWidth` and `maxIndex` are fixed when the
      script loads; the handlers update the index, the transform, the two
      buttons' `disabled` flags and the remembered touch coordinates. */
  class ProjectCarousel {
    const cardWidth: int
    const maxIndex: int
    var currentIndex: int
    var transform: Transform
    var prevDisabled: bool
    var nextDisabled: bool
    var touchStartX: int
    var touchEndX: int

    /** The index stays in range and the buttons agree with it. */
    ghost predicate Valid()
      reads this
    {
      cardWidth >= CardGap
      && InRange(currentIndex, maxIndex)
      && prevDisabled == (currentIndex == 0)
      && nextDisabled == (currentIndex >= maxIndex)
    }

    /** Load time: the width of the first card plus the gap, `maxIndex` from the
        card count, index 0, and one `updateButtons()`. The first card must
        exist: reading its width otherwise throws. */
    constructor (cardCount: nat, firstCardWidth: nat)
      requires cardCount >= 1
      ensures Valid()
      ensures cardWidth == firstCardWidth + CardGap && maxIndex == cardCount - VisibleCards
      ensures currentIndex == 0 && transform == Unset
      ensures prevDisabled && nextDisabled == (cardCount <= VisibleCards)
      ensures touchStartX == 0 && touchEndX == 0
    {
      cardWidth := firstCardWidth + CardGap;
      maxIndex := cardCount - VisibleCards;
      currentIndex := 0;
      transform := Unset;
      touchStartX, touchEndX := 0, 0;
      new;
      UpdateButtons();
    }

    /** `updateButtons()`: prev is disabled on the first page, next from
        `maxIndex` on. */
    method UpdateButtons()
      modifies this`prevDisabled, this`nextDisabled
      ensures prevDisabled == (currentIndex == 0)
      ensures nextDisabled == (currentIndex >= maxIndex)
    {
      prevDisabled := currentIndex == 0;
      nextDisabled := currentIndex >= maxIndex;
    }

    /** `scrollProjects(direction)`: a clamped step, then the translation and
        the buttons are rewritten whether or not the index moved. */
    method ScrollProjects(d: Direction)
      requires Valid()
      modifies this`currentIndex, this`transform, this`prevDisabled, this`nextDisabled
      ensures Valid()
      ensures currentIndex == Step(old(currentIndex), maxIndex, d)
      ensures transform == TranslateX(-(currentIndex * cardWidth))
    {
      if d == Next && currentIndex < maxIndex {
        currentIndex := currentIndex + 1;
      } else if d == Prev && currentIndex > 0 {
        currentIndex := currentIndex - 1;
      }
      transform := TranslateX(-(currentIndex * cardWidth));
      UpdateButtons();
    }

    /** The `touchstart` listener. */
    method TouchStart(x: int)
      requires Valid()
      modifies this`touchStartX
      ensures Valid() && touchStartX == x
    {
      touchStartX := x;
    }

    /** The `touchend` listener: record the end point, then `handleSwipe()`. */
    method TouchEnd(x: int)
      requires Valid()
      modifies this`touchEndX, this`currentIndex, this`transform, this`prevDisabled, this`nextDisabled
      ensures Valid() && touchEndX == x
      ensures SwipeAction(touchStartX, x) == None ==>
        currentIndex == old(currentIndex) && transform == old(transform)
      ensures SwipeAction(touchStartX, x).Some? ==>
        currentIndex == Step(old(currentIndex), maxIndex, SwipeAction(touchStartX, x).value)
        && transform == TranslateX(-(currentIndex * cardWidth))
    {
      touchEndX := x;
      HandleSwipe();
    }

    /** `handleSwipe()`: page only when the touch moved more than the threshold. */
    method HandleSwipe()
      requires Valid()
      modifies this`currentIndex, this`transform, this`prevDisabled, this`nextDisabled
      ensures Valid()
      ensures SwipeAction(touchStartX, touchEndX) == None ==>
        currentIndex == old(currentIndex) && transform == old(transform)
      ensures SwipeAction(touchStartX, touchEndX).Some? ==>
        currentIndex == Step(old(currentIndex), maxIndex, SwipeAction(touchStartX, touchEndX).value)
        && transform == TranslateX(-(currentIndex * cardWidth))
    {
      var swipeDistance := touchEndX - touchStartX;
      if Abs(swipeDistance) > SwipeThreshold {
        if swipeDistance > 0 {
          ScrollProjects(Prev);
        } else {
          ScrollProjects(Next);
        }
      }
    }

    /** The `resize` listener: the translation is redrawn at the current index
        with the new width, only when that width differs from the load-time
        one; neither the index nor `cardWidth` is touched. */
    method Resize(newFirstCardWidth: nat)
      requires Valid()
      modifies this`transform
      ensures Valid()
      ensures newFirstCardWidth + CardGap != cardWidth ==>
        transform == TranslateX(-(currentIndex * (newFirstCardWidth + CardGap)))
      ensures newFirstCardWidth + CardGap == cardWidth ==> transform == old(transform)
    {
      var newCardWidth := newFirstCardWidth + CardGap;
      if newCardWidth != cardWidth {
        transform := TranslateX(-(currentIndex * newCardWidth));
      }
    }
  }

  /** A session on a six-card carousel: clicks clamp at both ends, a 50px
      swipe does nothing and a resize keeps the page; the next click draws the
      translation with the load-time width again. */
  method Session()
  {
    var c := new ProjectCarousel(6, 300);
    assert c.maxIndex == 3 && c.cardWidth == 332;
    c.ScrollProjects(Prev);
    assert c.currentIndex == 0 && c.transform == TranslateX(0) && c.prevDisabled;
    c.ScrollProjects(Next);
    c.ScrollProjects(Next);
    c.ScrollProjects(Next);
    c.ScrollProjects(Next);
    assert c.currentIndex == 3 && c.nextDisabled && c.transform == TranslateX(-996);
    c.TouchStart(200);
    c.TouchEnd(250);
    assert c.currentIndex == 3;
    c.TouchEnd(251);
    assert c.currentIndex == 2 && !c.nextDisabled;
    c.Resize(400);
    assert c.currentIndex == 2 && c.transform == TranslateX(-864);
    c.ScrollProjects(Prev);
    assert c.transform == TranslateX(-332);
  }
}
