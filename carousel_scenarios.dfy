/**
 * Uses of the carousel that follow only from the operations' contracts:
 * "next" then "previous" comes back, three slides wrap around, and a
 * non-looping carousel stops at its last slide.
 */
module CarouselScenarios {

  import opened Carousel

  /** With looping on and more than one slide, "next" then "previous" restores the current index. */
  method NextThenPrevRestores(c: Carousel)
    requires c.Valid() && c.loop && c.total > 1 && c.Current() < c.total
    modifies c`current, c`events, c`timer, c`timersStarted, c`playing
    modifies c.slides`active, c.slides`direction, c.Shown()`active, c.Shown()`direction
    ensures c.Valid() && c.Current() == old(c.Current())
  {
    ghost var k := c.Current();
    ghost var n := c.total;
    ghost var j := NextIndex(k, n);
    c.Next();
    assert c.slides[j].index == j;
    assert c.Current() == if c.destroyed then k else j;
    NextThenPrev(k, n);
    c.Prev();
    assert c.slides[k].index == k;
  }

  /** A new looping, pausable carousel with one registered slide, which is shown and playing. */
  method AddFirst() returns (c: Carousel, a: Slide)
    ensures fresh(c) && fresh(a)
    ensures c.Valid() && c.loop && c.pause && !c.destroyed
    ensures c.slides == [a] && c.current == a && a.active && c.playing
    ensures c.events == [SlideChanged, CarouselPlaying, SlideAdded]
  {
    c := new Carousel(true, true);
    a := new Slide(c, false);
    a.NgOnInit();
  }

  /** A further slide that registers without being marked active stays hidden. */
  method AddHidden(c: Carousel) returns (s: Slide)
    requires c.Valid() && !c.destroyed && c.current != null && c.total > 0
    modifies c, c.current
    ensures fresh(s) && c.Valid() && c.slides == old(c.slides) + [s] && !s.active
    ensures s.direction == None
    ensures c.current == old(c.current) && c.current.active == old(c.current.active)
    ensures c.loop == old(c.loop) && c.pause == old(c.pause) && !c.destroyed && c.playing == old(c.playing)
    ensures c.events == old(c.events) + [SlideAdded]
  {
    s := new Slide(c, false);
    s.NgOnInit();
  }

  /** Slides A, B, C added in order: A is shown, the other two are inactive. */
  method AddThree() returns (c: Carousel, a: Slide, b: Slide, d: Slide)
    ensures fresh(c) && fresh(a) && fresh(b) && fresh(d)
    ensures c.Valid() && c.loop && c.pause && !c.destroyed
    ensures c.slides == [a, b, d] && c.total == 3 && c.current == a
    ensures a.active && !b.active && !d.active && c.playing
    ensures c.events == [SlideChanged, CarouselPlaying, SlideAdded, SlideAdded, SlideAdded]
  {
    c, a := AddFirst();
    b := AddHidden(c);
    d := AddHidden(c);
  }

  /** On a looping carousel showing the slide at `i`, "next" shows the slide at the next index. */
  method Advance(c: Carousel, i: nat)
    requires c.Valid() && c.loop && !c.destroyed && c.total > 1 && i < c.total && c.current == c.slides[i]
    modifies c, c.slides
    ensures c.Valid() && c.loop && !c.destroyed && c.slides == old(c.slides)
    ensures c.current == c.slides[NextIndex(i, c.total)] && c.current.active
  {
    assert c.Current() == i;
    c.Next();
  }

  /** From A, two "next" calls show C, and a third wraps back to A. */
  method Tour(c: Carousel, a: Slide, b: Slide, d: Slide)
    requires c.Valid() && c.slides == [a, b, d] && c.current == a && c.loop && !c.destroyed
    modifies c, a, b, d
    ensures c.slides == [a, b, d] && c.current == a && a.active && !b.active && !d.active
  {
    Advance(c, 0);
    assert c.current == b;
    Advance(c, 1);
    assert c.current == d;
    Advance(c, 2);
    assert c.slides[1].index == 1 && c.slides[2].index == 2;
  }

  /** Slides A, B, C registered in order, then "next" three times: A is shown again. */
  method AddThreeThenTour() returns (c: Carousel, a: Slide, b: Slide, d: Slide)
    ensures c.slides == [a, b, d] && c.current == a
    ensures a.active && !b.active && !d.active
  {
    c, a, b, d := AddThree();
    Tour(c, a, b, d);
  }

  /** Without looping, "previous" on an empty carousel takes the stopping branch. */
  method PrevOnEmpty() returns (c: Carousel)
    ensures c.slides == [] && c.current == null && !c.playing
    ensures c.events == [CarouselPaused] && c.timer == NoTimer
  {
    c := new Carousel(false, true);
    c.Prev();
  }

  /** Without looping, "next" on C pauses and leaves C shown. */
  method StopAtEnd(c: Carousel, a: Slide, b: Slide, d: Slide)
    requires c.Valid() && c.slides == [a, b, d] && c.current == d && d.active
    requires !c.loop && c.pause
    modifies c, a, b, d
    ensures c.current == d && d.active && !c.playing
    ensures c.events == old(c.events) + [CarouselPaused] && c.timer == NoTimer
  {
    assert c.slides[2] == d && c.Current() == 2;
    c.Next();
  }
}
