/**
 The web-story viewer: a slide cursor inside one story. It holds the slide `index`, the
 `progressKey` that re-mounts the progress bars, and the timeout that advances the slide on its
 own. Its parent supplies the props `open`, `webstory` and `startFromEnd`; at either end of the
 story it hands control back to the parent through the `onNextStory` and `onPrevStory` callbacks,
 modelled here as an `Outcome` the caller acts on.
 */
module Viewer {
  import opened Wrappers
  import opened StoryData

  /** How long one slide stays on screen before the viewer advances on its own, in milliseconds. */
  const SlideDuration: nat := 10000

  // ---------------------------------------------------------------------------------------------
  // Progress bars: a pure projection of the index
  // ---------------------------------------------------------------------------------------------

  /** The look of one progress bar: filled, animating, or empty. */
  datatype Bar = Done | Active | Pending

  /** The bar of slide `i` while slide `index` is on screen. */
  function BarState(i: int, index: int): (b: Bar)
    ensures b == Done <==> i < index
    ensures b == Active <==> i == index
    ensures b == Pending <==> index < i
  {
    if i < index then Done else if i == index then Active else Pending
  }

  /** The row of bars for a story of `count` slides, one per slide in order. */
  function Bars(count: nat, index: int): (bars: seq<Bar>)
    ensures |bars| == count
    ensures forall i :: 0 <= i < count ==> bars[i] == BarState(i, index)
  {
    if count == 0 then [] else Bars(count - 1, index) + [BarState(count - 1, index)]
  }

  /** How many bars of the row look like `b`. */
  function Count(bars: seq<Bar>, b: Bar): nat
  {
    if bars == [] then 0 else (if bars[0] == b then 1 else 0) + Count(bars[1..], b)
  }

  /** `x` clamped to the range 0..n. */
  function Clamp(x: int, n: nat): nat
  {
    if x < 0 then 0 else if x > n then n else x
  }

  /** Appending one bar adds one to its own count and nothing to the others. */
  lemma {:induction false} CountAppend(bars: seq<Bar>, x: Bar, b: Bar)
    ensures Count(bars + [x], b) == Count(bars, b) + (if x == b then 1 else 0)
  {
    if bars != [] {
      assert (bars + [x])[1..] == bars[1..] + [x];
      CountAppend(bars[1..], x, b);
    }
  }

  /** The filled bars are the slides before the index, clamped to the row. */
  lemma {:induction false} DoneCount(count: nat, index: int)
    ensures Count(Bars(count, index), Done) == Clamp(index, count)
  {
    if count > 0 {
      var rest, last := Bars(count - 1, index), BarState(count - 1, index);
      assert Bars(count, index) == rest + [last];
      DoneCount(count - 1, index);
      CountAppend(rest, last, Done);
    }
  }

  /** At most one bar animates: the one of the index, when it is a slide of the row. */
  lemma {:induction false} ActiveCount(count: nat, index: int)
    ensures Count(Bars(count, index), Active) == (if 0 <= index < count then 1 else 0)
  {
    if count > 0 {
      var rest, last := Bars(count - 1, index), BarState(count - 1, index);
      assert Bars(count, index) == rest + [last];
      ActiveCount(count - 1, index);
      CountAppend(rest, last, Active);
      assert Count(rest, Active) == (if 0 <= index < count - 1 then 1 else 0);
      assert (last == Active) == (index == count - 1);
    }
  }

  /** The empty bars are the slides after the index. */
  lemma {:induction false} PendingCount(count: nat, index: int)
    ensures Count(Bars(count, index), Pending) == count - Clamp(index + 1, count)
  {
    if count > 0 {
      var rest, last := Bars(count - 1, index), BarState(count - 1, index);
      assert Bars(count, index) == rest + [last];
      PendingCount(count - 1, index);
      CountAppend(rest, last, Pending);
    }
  }

  /** With the index on a slide of the story, exactly one bar animates and `index` bars are filled. */
  lemma BarsOfCursor(count: nat, index: int)
    requires 0 <= index < count
    ensures Count(Bars(count, index), Active) == 1
    ensures Count(Bars(count, index), Done) == index
    ensures Count(Bars(count, index), Pending) == count - 1 - index
  {
    DoneCount(count, index);
    ActiveCount(count, index);
    PendingCount(count, index);
  }

  // ---------------------------------------------------------------------------------------------
  // nextSlide, prevSlide and the re-seated index
  // ---------------------------------------------------------------------------------------------

  /**
   What one call of `nextSlide` or `prevSlide` does: set a new index, invoke the parent's
   `onNextStory` or `onPrevStory` (leaving the index alone), or nothing when no story is shown.
   */
  datatype Outcome = SetIndex(index: int) | CallNextStory | CallPrevStory | NoStory

  /** `nextSlide`: step forward inside the story, or ask for the next story at its last slide. */
  function NextSlideOutcome(webstory: Option<Story>, index: int): (o: Outcome)
    ensures webstory.None? <==> o == NoStory
    ensures o != CallPrevStory
    ensures webstory.Some? ==> (o == CallNextStory <==> index >= |webstory.value.slides| - 1)
    ensures o.SetIndex? ==> o.index == index + 1
    ensures o.SetIndex? && 0 <= index ==> 0 <= o.index < |webstory.value.slides|
  {
    if webstory.None? then NoStory
    else if index < |webstory.value.slides| - 1 then SetIndex(index + 1)
    else CallNextStory
  }

  /** `prevSlide`: step back inside the story, or ask for the previous story at its first slide. */
  function PrevSlideOutcome(webstory: Option<Story>, index: int): (o: Outcome)
    ensures webstory.None? <==> o == NoStory
    ensures o != CallNextStory
    ensures webstory.Some? ==> (o == CallPrevStory <==> index <= 0)
    ensures o.SetIndex? ==> o.index == index - 1
    ensures o.SetIndex? && index < |webstory.value.slides| ==> 0 <= o.index < |webstory.value.slides|
  {
    if webstory.None? then NoStory
    else if index > 0 then SetIndex(index - 1)
    else CallPrevStory
  }

  /** A step back undoes a step forward inside the story. */
  lemma PrevUndoesNextSlide(webstory: Option<Story>, index: int)
    requires NextSlideOutcome(webstory, index).SetIndex? && 0 <= index
    ensures PrevSlideOutcome(webstory, NextSlideOutcome(webstory, index).index) == SetIndex(index)
  {
  }

  /** A step forward undoes a step back inside the story. */
  lemma NextUndoesPrevSlide(webstory: Option<Story>, index: int)
    requires PrevSlideOutcome(webstory, index).SetIndex? && index < |webstory.value.slides|
    ensures NextSlideOutcome(webstory, PrevSlideOutcome(webstory, index).index) == SetIndex(index)
  {
  }

  /** The index the reset effect seats when a story is opened: its last slide or its first. */
  function SeatIndex(webstory: Story, startFromEnd: bool): (i: int)
    ensures startFromEnd ==> i == |webstory.slides| - 1
    ensures !startFromEnd ==> i == 0
    ensures |webstory.slides| > 0 ==> 0 <= i < |webstory.slides|
  {
    if startFromEnd then |webstory.slides| - 1 else 0
  }

  /**
   The slide a render of the viewer reads for its image and caption: `webstory.slides[index]`,
   None where JavaScript reads `undefined` and the following `.imageUrl` throws.
   */
  function RenderedSlide(webstory: Story, index: int): (r: Option<Slide>)
    ensures r.Some? <==> 0 <= index < |webstory.slides|
    ensures r.Some? ==> r.value == webstory.slides[index]
  {
    if 0 <= index < |webstory.slides| then Some(webstory.slides[index]) else None
  }

  /**
   The index after `k` successive `nextSlide` calls on one story, and how many of them invoked
   `onNextStory`, when that callback leaves the viewer where it is.
   */
  function NextRun(webstory: Story, index: int, k: nat): (int, nat)
    decreases k
  {
    if k == 0 then (index, 0)
    else
      var o := NextSlideOutcome(Some(webstory), index);
      if o.SetIndex? then NextRun(webstory, o.index, k - 1)
      else
        var r := NextRun(webstory, index, k - 1);
        (r.0, r.1 + 1)
  }

  /**
   From slide `index`, `nextSlide` walks forward one slide per call until the last slide; every
   call after that invokes `onNextStory` once. In particular, `count` calls from the first slide
   of a story of `count` slides make `count - 1` steps and ask for the next story once.
   */
  lemma {:induction false} NextRunCrossesAtEnd(webstory: Story, index: int, k: nat)
    requires 0 <= index < |webstory.slides|
    ensures var last := |webstory.slides| - 1;
            NextRun(webstory, index, k) ==
              if index + k <= last then (index + k, 0) else (last, index + k - last)
    decreases k
  {
    if k > 0 {
      if index < |webstory.slides| - 1 {
        NextRunCrossesAtEnd(webstory, index + 1, k - 1);
      } else {
        NextRunCrossesAtEnd(webstory, index, k - 1);
      }
    }
  }

  // ---------------------------------------------------------------------------------------------
  // Timers and effect dependencies
  // ---------------------------------------------------------------------------------------------

  /**
   A timeout the viewer has scheduled with the host: its handle, the slide index its `nextSlide`
   closure captured, and its delay.
   */
  datatype Timer = Timer(id: nat, slide: int, delay: nat)

  /** The slide indices the pending timeouts will advance from, in scheduling order. */
  function PendingSlides(timers: seq<Timer>): (slides: seq<int>)
    ensures |slides| == |timers|
    ensures forall i :: 0 <= i < |timers| ==> slides[i] == timers[i].slide
  {
    if timers == [] then [] else [timers[0].slide] + PendingSlides(timers[1..])
  }

  /** `clearTimeout(id)`: the pending timeouts without the one with handle `id`. */
  function Cancel(timers: seq<Timer>, id: nat): (rest: seq<Timer>)
    ensures forall t :: t in rest <==> t in timers && t.id != id
  {
    if timers == [] then []
    else (if timers[0].id == id then [] else [timers[0]]) + Cancel(timers[1..], id)
  }

  /** Clearing the handle that every pending timeout carries leaves none pending. */
  lemma {:induction false} CancelOwn(timers: seq<Timer>, id: nat)
    requires forall i :: 0 <= i < |timers| ==> timers[i].id == id
    ensures Cancel(timers, id) == []
  {
    if timers != [] {
      CancelOwn(timers[1..], id);
    }
  }

  /** The props and index the viewer's last commit saw; React compares against them to decide which effects re-run. */
  datatype Deps = Deps(open: bool, webstory: Option<Story>, startFromEnd: bool, index: int)

  /** The reset effect re-runs on the first commit and whenever `open`, `webstory` or `startFromEnd` changed. */
  predicate ResetDue(last: Option<Deps>, open: bool, webstory: Option<Story>, startFromEnd: bool)
  {
    last.None? || last.value.open != open || last.value.webstory != webstory
    || last.value.startFromEnd != startFromEnd
  }

  /** The timer effect re-runs on the first commit and whenever `index`, `open` or `webstory` changed. */
  predicate TimerDue(last: Option<Deps>, index: int, open: bool, webstory: Option<Story>)
  {
    last.None? || last.value.index != index || last.value.open != open
    || last.value.webstory != webstory
  }

  // ---------------------------------------------------------------------------------------------
  // The component's state
  // ---------------------------------------------------------------------------------------------

  class WebstoryViewer {
    /** The slide on screen. */
    var index: int
    /** The key of the progress-bar row; changing it re-mounts the bars. */
    var progressKey: nat
    /** The viewer's timeouts still pending in the host, in scheduling order. */
    var timers: seq<Timer>
    /** The handle the timer effect's cleanup will clear, if its last run scheduled one. */
    var handle: Option<nat>
    /** The handle the host gives the next timeout. */
    var nextHandle: nat
    /** The dependencies seen by the last commit, if there was one. */
    var committed: Option<Deps>

    /**
     The timer discipline: every pending timeout is the one the last timer-effect run scheduled,
     so at most one is pending, and every one waits `SlideDuration`.
     */
    ghost predicate Valid()
      reads this
      ensures Valid() ==> |timers| <= 1
    {
      (handle.None? ==> timers == []) &&
      (handle.Some? ==>
        handle.value < nextHandle &&
        (timers == [] || (|timers| == 1 && timers[0].id == handle.value && timers[0].delay == SlideDuration)))
    }

    /** Mounting: `useState(0)` for both the index and the progress key; nothing is scheduled yet. */
    constructor ()
      ensures Valid()
      ensures index == 0 && progressKey == 0 && timers == [] && handle == None && committed == None
    {
      index := 0;
      progressKey := 0;
      timers := [];
      handle := None;
      nextHandle := 0;
      committed := None;
    }

    /** `nextSlide`: move forward inside the story or report that the next story is wanted. */
    method NextSlide(webstory: Option<Story>) returns (outcome: Outcome)
      modifies this`index
      ensures outcome == NextSlideOutcome(webstory, old(index))
      ensures index == if outcome.SetIndex? then outcome.index else old(index)
    {
      if webstory.None? {
        return NoStory;
      }
      if index < |webstory.value.slides| - 1 {
        index := index + 1;
        outcome := SetIndex(index);
      } else {
        outcome := CallNextStory;
      }
    }

    /** `prevSlide`: move back inside the story or report that the previous story is wanted. */
    method PrevSlide(webstory: Option<Story>) returns (outcome: Outcome)
      modifies this`index
      ensures outcome == PrevSlideOutcome(webstory, old(index))
      ensures index == if outcome.SetIndex? then outcome.index else old(index)
    {
      if webstory.None? {
        return NoStory;
      }
      if index > 0 {
        index := index - 1;
        outcome := SetIndex(index);
      } else {
        outcome := CallPrevStory;
      }
    }

    /** The reset effect: when open with a story, seat the index at its first or last slide and bump the progress key. */
    method ResetEffect(open: bool, webstory: Option<Story>, startFromEnd: bool)
      modifies this`index, this`progressKey
      ensures open && webstory.Some? ==>
                index == SeatIndex(webstory.value, startFromEnd) && progressKey == old(progressKey) + 1
      ensures !(open && webstory.Some?) ==> index == old(index) && progressKey == old(progressKey)
    {
      if open && webstory.Some? {
        if startFromEnd {
          index := |webstory.value.slides| - 1;
        } else {
          index := 0;
        }
        progressKey := progressKey + 1;
      }
    }

    /**
     The timer effect, run for the render that showed slide `slide`: first the cleanup of its
     previous run clears that run's timeout, then, when open with a story, a new timeout of
     `SlideDuration` is scheduled whose callback is `nextSlide` for that slide.
     */
    method TimerEffect(open: bool, webstory: Option<Story>, slide: int)
      requires Valid()
      modifies this`timers, this`handle, this`nextHandle
      ensures Valid()
      ensures open && webstory.Some? ==>
                timers == [Timer(old(nextHandle), slide, SlideDuration)] && handle == Some(old(nextHandle))
                && nextHandle == old(nextHandle) + 1
      ensures !(open && webstory.Some?) ==> timers == [] && handle == None && nextHandle == old(nextHandle)
    {
      if handle.Some? {
        CancelOwn(timers, handle.value);
        timers := Cancel(timers, handle.value);
        handle := None;
      }
      if open && webstory.Some? {
        timers := timers + [Timer(nextHandle, slide, SlideDuration)];
        handle := Some(nextHandle);
        nextHandle := nextHandle + 1;
      }
    }

    /**
     One render and commit with the given props. The render reads the slide at the index it
     holds (`shown`): the read sits in the component body, so it happens whenever a story is
     given, whatever `open` is; without a story the component returns early. Then each effect runs, in
     declaration order, when its dependencies changed since the last commit, the timer effect
     with the index this render showed. When the reset effect moved the index, React renders
     again and the timer effect re-runs for the new index, cancelling the timeout the first run
     scheduled. Whenever the timer effect re-ran, the timeout left pending is a new one with the
     full `SlideDuration`.
     */
    method Render(open: bool, webstory: Option<Story>, startFromEnd: bool) returns (shown: Option<Slide>)
      requires Valid()
      modifies this
      ensures Valid()
      ensures shown == if webstory.Some? then RenderedSlide(webstory.value, old(index)) else None
      ensures committed == Some(Deps(open, webstory, startFromEnd, index))
      ensures var reset := ResetDue(old(committed), open, webstory, startFromEnd) && open && webstory.Some?;
              index == (if reset then SeatIndex(webstory.value, startFromEnd) else old(index)) &&
              progressKey == old(progressKey) + (if reset then 1 else 0)
      ensures nextHandle >= old(nextHandle)
      ensures TimerDue(old(committed), old(index), open, webstory) || index != old(index) ==>
                PendingSlides(timers) == (if open && webstory.Some? then [index] else [])
      ensures (TimerDue(old(committed), old(index), open, webstory) || index != old(index)) && open && webstory.Some? ==>
                |timers| == 1 && timers[0].id >= old(nextHandle) && timers[0] !in old(timers) &&
                timers[0].delay == SlideDuration
      ensures !(TimerDue(old(committed), old(index), open, webstory) || index != old(index)) ==>
                timers == old(timers) && handle == old(handle) && nextHandle == old(nextHandle)
    {
      var rendered := index;
      shown := if webstory.Some? then RenderedSlide(webstory.value, rendered) else None;
      var resetDue := ResetDue(committed, open, webstory, startFromEnd);
      var timerDue := TimerDue(committed, rendered, open, webstory);
      committed := Some(Deps(open, webstory, startFromEnd, rendered));
      if resetDue {
        ResetEffect(open, webstory, startFromEnd);
      }
      if timerDue {
        TimerEffect(open, webstory, rendered);
      }
      if index != rendered {
        // the state update from the reset effect renders once more; only `index` changed
        committed := Some(Deps(open, webstory, startFromEnd, index));
        TimerEffect(open, webstory, index);
      }
    }

    /** Unmounting: the timer effect's cleanup clears its pending timeout. */
    method Unmount()
      requires Valid()
      modifies this`timers, this`handle
      ensures Valid() && timers == [] && handle == None
    {
      if handle.Some? {
        CancelOwn(timers, handle.value);
        timers := Cancel(timers, handle.value);
        handle := None;
      }
    }
  }
}
