/**
 * The carousel: a container of slides that keeps the slides' positions
 * contiguous, moves the "active" mark from slide to slide, and drives an
 * auto-advance timer. The slides and the carousel are objects whose fields the
 * operations update in place; the event emitters are an appended log and the
 * browser's interval timer is an abstract "pending timer" state.
 */
module Carousel {

  import Label
  import Wrappers

  /** The direction of the last transition applied to a slide. */
  datatype Direction = None | Next | Prev

  /** The `interval` input after numeric coercion: milliseconds, or NaN. */
  datatype Interval = NaN | Millis(ms: int)

  /** The guard `!isNaN(x) && x > 0`. */
  predicate Positive(i: Interval) {
    i.Millis? && i.ms > 0
  }

  /**
   * The auto-advance timer: absent, or pending with its period. `serial`
   * numbers the schedulings, so that a freshly scheduled timer can be told
   * from one left running.
   */
  datatype Timer = NoTimer | Pending(period: int, ghost serial: nat)

  /** One emission of one of the carousel's event emitters. */
  datatype Event = SlideChanged | SlideAdded | SlideRemoved | CarouselPaused | CarouselPlaying

  /** The index the carousel moves to on "next": one further, wrapping to 0. */
  function NextIndex(current: nat, total: nat): (r: nat)
    requires total > 0
    ensures r < total
    ensures current < total ==> (r == 0 <==> current == total - 1)
    ensures current < total - 1 ==> r == current + 1
  {
    (current + 1) % total
  }

  /**
   * The index the carousel moves to on "previous": one back, wrapping to the
   * last. On an empty carousel it is -1, which names no slide.
   */
  function PrevIndex(current: nat, total: nat): (r: int)
    ensures current <= total ==> -1 <= r < total
    ensures r < 0 <==> current == 0 && total == 0
    ensures current < total ==> (r == total - 1 <==> current == 0)
    ensures 0 < current ==> r == current - 1
  {
    if current - 1 < 0 then total - 1 else current - 1
  }

  /** With more than one slide, "next" then "previous" returns to the start. */
  lemma NextThenPrev(current: nat, total: nat)
    requires current < total && total > 1
    ensures PrevIndex(NextIndex(current, total), total) == current
  {
  }

  /** With more than one slide, "previous" then "next" returns to the start. */
  lemma PrevThenNext(current: nat, total: nat)
    requires current < total && total > 1
    ensures NextIndex(PrevIndex(current, total), total) == current
  {
  }

  /**
   * The direction `select` applies: the requested one, or, when none is
   * requested, NEXT for a slide further on than the current index and PREV
   * otherwise.
   */
  function Applied(requested: Direction, newIndex: int, current: int): (d: Direction)
    ensures d != None
    ensures requested != None ==> d == requested
    ensures requested == None ==> (d == Next <==> newIndex > current)
  {
    if requested != None then requested
    else if newIndex > current then Next else Prev
  }

  /** A slide. It registers with its carousel when initialised and leaves it when destroyed. */
  class Slide {
    var index: nat
    var direction: Direction
    var active: bool
    /** The carousel the slide is a child of (injected by the framework). */
    const carousel: Carousel

    constructor (carousel: Carousel, active: bool)
      ensures this.carousel == carousel && this.active == active
      ensures index == 0 && direction == None
    {
      this.carousel := carousel;
      this.active := active;
      index := 0;
      direction := None;
    }

    /** Initialisation: the slide adds itself to its carousel. */
    method NgOnInit()
      requires carousel.Valid() && this !in carousel.slides
      modifies carousel`slides, carousel`total, carousel`current, carousel`events
      modifies carousel`timer, carousel`timersStarted, carousel`playing
      modifies this, carousel.Shown()`active, carousel.Shown()`direction
      ensures carousel.Valid() && carousel.Added(this, old(carousel.current))
    {
      carousel.Add(this);
    }

    /** Destruction: the slide removes itself from its carousel. */
    method NgOnDestroy()
      requires carousel.Valid()
      requires index < |carousel.slides| && carousel.slides[index] == this
      modifies carousel`slides, carousel`total, carousel`current, carousel`events, carousel.slides`index
      ensures carousel.Valid() && carousel.Removed(this)
    {
      carousel.Remove(this);
    }
  }

  class Carousel {
    /** Whether "next" wraps from the last slide to the first (and "previous" back). */
    var loop: bool
    /** Whether `stop` may pause the carousel. */
    var pause: bool
    var interval: Interval
    /** The slides in display order. */
    var slides: seq<Slide>
    /** The slide being shown, or null. */
    var current: Slide?
    var total: int
    var playing: bool
    var destroyed: bool
    var timer: Timer
    /** How many timers have been scheduled so far. */
    ghost var timersStarted: nat
    /** Every event emitted so far, oldest first. */
    var events: seq<Event>

    /** Slide positions are 0, 1, ... in display order and `total` counts the slides. */
    ghost predicate Indexed()
      reads this, slides
    {
      total == |slides| && forall i :: 0 <= i < |slides| ==> slides[i].index == i
    }

    /** Until the carousel is destroyed, the only slide that can be active is the current one. */
    ghost predicate SingleActive()
      reads this, slides
    {
      !destroyed ==> forall i :: 0 <= i < |slides| && slides[i].active ==> slides[i] == current
    }

    /** A pending timer was scheduled with the interval now in force, which is positive. */
    ghost predicate TimerAgrees()
      reads this
    {
      timer.Pending? ==> interval == Millis(timer.period) && timer.period > 0 && timer.serial < timersStarted
    }

    ghost predicate Valid()
      reads this, slides
    {
      Indexed() && SingleActive() && TimerAgrees()
    }

    /**
     * `prev` does not fault: it takes the stopping branch, or its target names
     * a slide.
     */
    predicate PrevResolves()
      reads this, current, slides
    {
      && total == |slides|
      && var j := PrevIndex(Current(), |slides|);
        (!loop && j == total - 1) || 0 <= j < total
    }

    /** The current slide as a frame. */
    ghost function Shown(): set<Slide>
      reads this
    {
      if current == null then {} else {current}
    }

    /** Configuration `loop` and `pause`; no slides, not playing, no timer. */
    constructor (loop: bool, pause: bool)
      ensures Valid() && this.loop == loop && this.pause == pause
      ensures slides == [] && total == 0 && current == null && interval == NaN
      ensures !playing && !destroyed && timer == NoTimer && events == []
    {
      this.loop := loop;
      this.pause := pause;
      interval := NaN;
      slides := [];
      current := null;
      total := 0;
      playing := false;
      destroyed := false;
      timer := NoTimer;
      timersStarted := 0;
      events := [];
    }

    /**
     * The index of the slide being shown, 0 when there is none. While the
     * slides are numbered by position, it is the position of the current slide.
     */
    function Current(): (r: nat)
      reads this, current, slides
      ensures Indexed() && current in slides ==> r < |slides| && slides[r] == current
    {
      if current == null then 0 else current.index
    }

    /** The accessible label of a slide. */
    function AriaLabel(slide: Slide): (r: string)
      requires Valid()
      reads this, slides, slide
      ensures r == Label.ItemLabel(slide.index + 1, total)
      ensures Label.ParseLabel(r) == Wrappers.Some((slide.index + 1, total))
    {
      Label.ParseItemLabel(slide.index + 1, total);
      Label.ItemLabel(slide.index + 1, total)
    }

    /** At most one slide of the collection is active while the carousel is not destroyed. */
    lemma AtMostOneActive(i: nat, j: nat)
      requires Valid() && !destroyed
      requires i < |slides| && j < |slides| && slides[i].active && slides[j].active
      ensures i == j
    {
    }

    // ---- State changes, stated as relations between the state before and after ----

    /**
     * The timer, if any, was cancelled; when the interval is a positive number
     * a timer with that period was scheduled during the call.
     */
    twostate predicate Refreshed()
      reads this
    {
      && old(timersStarted) <= timersStarted
      && if Positive(interval) then timer.Pending? && timer.period == interval.ms && old(timersStarted) <= timer.serial
         else timer == NoTimer
    }

    /** Every slide of the collection other than `a` and `b` kept its flags. */
    twostate predicate OthersKept(a: Slide?, b: Slide?)
      reads this, slides
    {
      && slides == old(slides)
      && forall i :: 0 <= i < |slides| && slides[i] != a && slides[i] != b ==>
        slides[i].active == old(slides[i].active) && slides[i].direction == old(slides[i].direction)
    }

    /**
     * The effect of a transition to `slide` in direction `d`, `prev` being the
     * slide shown before: both get direction `d`, `slide` becomes active and
     * current, `prev` inactive, one "slide changed" event, a fresh timer.
     */
    twostate predicate MovedTo(slide: Slide, d: Direction, prev: Slide?)
      reads this, slides, slide, prev
    {
      && slide.direction == d && slide.active == (slide != prev)
      && (prev != null ==> prev.direction == d && !prev.active)
      && current == slide
      && events == old(events) + [SlideChanged]
      && Refreshed()
      && playing == old(playing)
      && OthersKept(slide, prev)
    }

    /** Nothing a transition to `slide` could have changed has changed. */
    twostate predicate Untouched(slide: Slide, prev: Slide?)
      reads this, slides, slide, prev
    {
      && current == old(current) && events == old(events) && playing == old(playing)
      && timer == old(timer) && timersStarted == old(timersStarted)
      && slide.active == old(slide.active) && slide.direction == old(slide.direction)
      && (prev != null ==> prev.active == old(prev.active) && prev.direction == old(prev.direction))
      && OthersKept(slide, prev)
    }

    /** The effect of `select(slide, requested)`, `prev` being the slide shown before. */
    twostate predicate Selected(slide: Slide, requested: Direction, prev: Slide?)
      reads this, slides, slide, prev
    {
      if slide != prev && !destroyed then MovedTo(slide, Applied(requested, old(slide.index), old(Current())), prev)
      else Untouched(slide, prev)
    }

    /**
     * The effect of `stop`: with `pause` on, not playing, one "paused" event and
     * no pending timer; with `pause` off, nothing. No slide changes either way.
     */
    twostate predicate Halted(prev: Slide?)
      reads this, slides, prev
    {
      && current == old(current) && timersStarted == old(timersStarted)
      && (prev != null ==> prev.active == old(prev.active) && prev.direction == old(prev.direction))
      && OthersKept(null, null)
      && if pause then !playing && events == old(events) + [CarouselPaused] && timer == NoTimer
         else playing == old(playing) && events == old(events) && timer == old(timer)
    }

    /**
     * The effect of `next`: without looping at the last index it stops;
     * otherwise it selects the slide at the next index with direction NEXT.
     */
    twostate predicate Advanced(prev: Slide?)
      reads this, slides, prev
    {
      && old(total) > 0 && slides == old(slides) && |slides| == old(total)
      && var j := NextIndex(old(Current()), old(total));
        if j == 0 && !loop then Halted(prev) else Selected(old(slides)[j], Direction.Next, prev)
    }

    /**
     * The effect of `prev`: without looping at index 0 it stops; otherwise it
     * selects the slide at the previous index with direction PREV.
     */
    twostate predicate Retreated(prev: Slide?)
      reads this, slides, prev
    {
      && slides == old(slides) && |slides| == old(total)
      && var j := PrevIndex(old(Current()), old(total));
        if !loop && j == old(total) - 1 then Halted(prev)
        else 0 <= j < |slides| && Selected(old(slides)[j], Direction.Prev, prev)
    }

    /**
     * The effect of `add(slide)`, `prev` being the slide shown before: the
     * slide is appended with the next index; the first slide, or one marked
     * active beforehand, is selected (and the first starts playing); any other
     * is made inactive; one "slide added" event closes the call.
     */
    twostate predicate Added(slide: Slide, prev: Slide?)
      reads this, slides, slide, prev
    {
      var n := old(total);
      var chosen := n == 0 || old(slide.active);
      var moved := chosen && slide != prev && !destroyed;
      var started := n == 0 && !old(playing);
      && slides == old(slides) + [slide] && total == n + 1 && slide.index == n
      && (moved ==>
            && current == slide && slide.active
            && slide.direction == Applied(None, n, old(Current()))
            && (prev != null ==> !prev.active && prev.direction == slide.direction))
      && (!moved ==>
            && current == prev
            && slide.active == (chosen && old(slide.active))
            && slide.direction == old(slide.direction)
            && (prev != null && prev != slide ==> prev.active == old(prev.active) && prev.direction == old(prev.direction)))
      && playing == (old(playing) || n == 0)
      && events == old(events) + (if moved then [SlideChanged] else [])
                               + (if started then [CarouselPlaying] else []) + [SlideAdded]
      && if moved || started then Refreshed() else timer == old(timer) && timersStarted == old(timersStarted)
    }

    /**
     * The effect of `remove(slide)`: the slide is spliced out at its index and
     * `total` drops by one; when no slide is left the current slide is cleared
     * and nothing is emitted, otherwise the current slide is kept (even when it
     * is the removed one) and one "slide removed" event is emitted.
     */
    twostate predicate Removed(slide: Slide)
      reads this, slides, slide
    {
      var p := old(slide.index);
      && p < |old(slides)|
      && slides == old(slides)[..p] + old(slides)[p + 1..] && total == old(total) - 1
      && slide.index == p
      && if total == 0 then current == null && events == old(events)
         else current == old(current) && events == old(events) + [SlideRemoved]
    }

    // ---- Operations ----

    /** Destruction: the carousel is marked destroyed and its timer cancelled. */
    method NgOnDestroy()
      requires Valid()
      modifies this`destroyed, this`timer
      ensures Valid() && destroyed && timer == NoTimer
    {
      destroyed := true;
      timer := NoTimer;
    }

    /** The `interval` setter: stores the coerced value and restarts the timer. */
    method SetInterval(value: Interval)
      requires Valid()
      modifies this`interval, this`timer, this`timersStarted
      ensures Valid() && interval == value && Refreshed()
    {
      interval := value;
      RestartInterval();
    }

    /** The first slide whose index is `index`, or null when there is none. */
    method Get(index: int) returns (r: Slide?)
      ensures r == null <==> forall i :: 0 <= i < |slides| ==> slides[i].index != index
      ensures r != null ==> exists i :: 0 <= i < |slides| && slides[i] == r && r.index == index
                                       && forall k :: 0 <= k < i ==> slides[k].index != index
      ensures Indexed() && 0 <= index < |slides| ==> r == slides[index]
    {
      var i := 0;
      while i < |slides|
        invariant 0 <= i <= |slides|
        invariant forall k :: 0 <= k < i ==> slides[k].index != index
      {
        if slides[i].index == index {
          return slides[i];
        }
        i := i + 1;
      }
      return null;
    }

    /** Appends a slide and selects it when it is the first or was marked active. */
    method Add(slide: Slide)
      requires Valid() && slide !in slides
      modifies this`slides, this`total, this`current, this`events, this`timer, this`timersStarted, this`playing
      modifies slide, Shown()`active, Shown()`direction
      ensures Valid() && Added(slide, old(current))
    {
      slide.index := total;
      slides := slides + [slide];
      total := total + 1;
      if total == 1 || slide.active {
        Select(slide, None);
        if total == 1 {
          Play();
        }
      } else {
        slide.active := false;
      }
      events := events + [SlideAdded];
    }

    /** Splices a slide out at its index and renumbers the slides that remain. */
    method Remove(slide: Slide)
      requires Valid()
      requires slide.index < |slides| && slides[slide.index] == slide
      modifies this`slides, this`total, this`current, this`events, slides`index
      ensures Valid() && Removed(slide)
      ensures total > 0 && old(current) == slide && !destroyed ==> forall i :: 0 <= i < |slides| ==> !slides[i].active
    {
      var p := slide.index;
      var rest := slides[..p] + slides[p + 1..];
      assert forall k :: 0 <= k < |rest| ==> rest[k] == old(slides)[if k < p then k else k + 1];
      assert forall k :: 0 <= k < |rest| ==> rest[k].index == (if k < p then k else k + 1);
      slides := rest;
      total := total - 1;
      if total == 0 {
        current := null;
        return;
      }
      var i := 0;
      while i < total
        modifies rest`index
        invariant 0 <= i <= total == |rest| && slides == rest
        invariant forall k :: 0 <= k < i ==> rest[k].index == k
        invariant forall k :: i <= k < |rest| ==> rest[k].index == old(rest[k].index)
        invariant slide.index == p
      {
        rest[i].index := i;
        i := i + 1;
      }
      events := events + [SlideRemoved];
    }

    /** Moves to `slide` unless it is already the current slide. */
    method Select(slide: Slide, direction: Direction)
      requires TimerAgrees()
      modifies this`current, this`events, this`timer, this`timersStarted
      modifies slide`active, slide`direction, Shown()`active, Shown()`direction
      ensures TimerAgrees() && (old(Valid()) ==> Valid())
      ensures Selected(slide, direction, old(current))
    {
      var newIndex := slide.index;
      var d := direction;
      if d == None {
        d := if newIndex > Current() then Direction.Next else Direction.Prev;
      }
      if slide != current {
        MoveTo(slide, d);
      }
    }

    /** Transitions to the following slide, or stops at the last one when not looping. */
    method Next()
      requires Valid() && total > 0
      modifies this`current, this`events, this`timer, this`timersStarted, this`playing
      modifies slides`active, slides`direction, Shown()`active, Shown()`direction
      ensures Valid() && Advanced(old(current))
    {
      var index := NextIndex(Current(), total);
      if index == 0 && !loop {
        Stop();
        return;
      }
      var s := Get(index);
      Select(s, Direction.Next);
    }

    /**
     * Transitions to the preceding slide, or stops at the first one when not
     * looping (on an empty carousel too, whose target -1 is `total - 1`).
     * Otherwise it looks up the slide at the target and faults when there is
     * none, which the second requirement rules out.
     */
    method Prev()
      requires Valid()
      requires PrevResolves()
      modifies this`current, this`events, this`timer, this`timersStarted, this`playing
      modifies slides`active, slides`direction, Shown()`active, Shown()`direction
      ensures Valid() && Retreated(old(current))
    {
      var index := PrevIndex(Current(), total);
      if !loop && index == total - 1 {
        Stop();
        return;
      }
      var s := Get(index);
      Select(s, Direction.Prev);
    }

    /** Starts playing unless already playing. */
    method Play()
      requires TimerAgrees()
      modifies this`playing, this`events, this`timer, this`timersStarted
      ensures TimerAgrees() && (old(Valid()) ==> Valid()) && playing
      ensures old(playing) ==> events == old(events) && timer == old(timer) && timersStarted == old(timersStarted)
      ensures !old(playing) ==> events == old(events) + [CarouselPlaying] && Refreshed()
    {
      if !playing {
        playing := true;
        events := events + [CarouselPlaying];
        RestartInterval();
      }
    }

    /** Pauses, when `pause` allows it. */
    method Stop()
      requires TimerAgrees()
      modifies this`playing, this`events, this`timer
      ensures TimerAgrees() && (old(Valid()) ==> Valid()) && Halted(old(current))
    {
      if pause {
        playing := false;
        events := events + [CarouselPaused];
        ResetInterval();
      }
    }

    /** Left arrow goes back, right arrow goes forward; other keys are ignored. */
    method OnKeydown(key: string)
      requires Valid()
      requires key == "ArrowRight" ==> total > 0
      requires key == "ArrowLeft" ==> PrevResolves()
      modifies this`current, this`events, this`timer, this`timersStarted, this`playing
      modifies slides`active, slides`direction, Shown()`active, Shown()`direction
      ensures Valid()
      ensures key == "ArrowLeft" ==> Retreated(old(current))
      ensures key == "ArrowRight" ==> Advanced(old(current))
      ensures key != "ArrowLeft" && key != "ArrowRight" ==> unchanged(this) && unchanged(slides) && unchanged(Shown())
    {
      if key == "ArrowLeft" {
        Prev();
      } else if key == "ArrowRight" {
        Next();
      }
    }

    /**
     * One firing of the pending timer. It re-reads the interval: while playing,
     * with slides and a positive interval it advances, otherwise it stops.
     */
    method Tick()
      requires Valid() && timer.Pending?
      modifies this`current, this`events, this`timer, this`timersStarted, this`playing
      modifies slides`active, slides`direction, Shown()`active, Shown()`direction
      ensures Valid()
      ensures old(playing) && total != 0 && Positive(interval) ==> Advanced(old(current))
      ensures !(old(playing) && total != 0 && Positive(interval)) ==> Halted(old(current))
    {
      var tick := interval;
      if playing && total != 0 && Positive(tick) {
        Next();
      } else {
        Stop();
      }
    }

    /** The transition itself; ignored once the carousel is destroyed. */
    method MoveTo(slide: Slide, direction: Direction)
      requires TimerAgrees()
      modifies this`current, this`events, this`timer, this`timersStarted
      modifies slide`active, slide`direction, Shown()`active, Shown()`direction
      ensures TimerAgrees() && (old(Valid()) ==> Valid())
      ensures destroyed ==> Untouched(slide, old(current))
      ensures !destroyed ==> MovedTo(slide, direction, old(current))
    {
      if destroyed {
        return;
      }
      slide.direction := direction;
      slide.active := true;
      if current != null {
        current.direction := direction;
        current.active := false;
      }
      current := slide;
      events := events + [SlideChanged];
      RestartInterval();
    }

    /** Cancels the pending timer, if any. */
    method ResetInterval()
      modifies this`timer
      ensures timer == NoTimer
    {
      if timer.Pending? {
        timer := NoTimer;
      }
    }

    /** Cancels the pending timer and schedules a new one when the interval is positive. */
    method RestartInterval()
      modifies this`timer, this`timersStarted
      ensures TimerAgrees() && Refreshed()
    {
      ResetInterval();
      if Positive(interval) {
        timer := Pending(interval.ms, timersStarted);
        timersStarted := timersStarted + 1;
      }
    }
  }
}
