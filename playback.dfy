/**
 Properties of the playback engine as a whole, through the viewer's callbacks into the carousel
 and back: where each tap or timeout lands, when the progress key moves, how forward and backward
 steps undo each other, and that playback left alone runs through every remaining slide and then
 closes the viewer.
 */
module Playback {
  import opened Wrappers
  import opened StoryData
  import opened Viewer
  import opened Carousel

  /** The viewer is mounted on slide `i` of story `k`. */
  predicate At(st: State, k: nat, i: int)
  {
    st.sel.selected == Some(k) && st.viewer.Some? && st.viewer.value.index == i
  }

  /** The story and slide on screen, or None when the viewer is closed. */
  function Position(st: State): Option<(nat, int)>
  {
    if st.sel.selected.Some? && st.viewer.Some? then Some((st.sel.selected.value, st.viewer.value.index))
    else None
  }

  // ---------------------------------------------------------------------------------------------
  // Where one step lands
  // ---------------------------------------------------------------------------------------------

  /** Inside a story, a forward step shows the next slide, re-arms the timeout for it and keeps the key. */
  lemma NextWithinStory(stories: seq<Story>, st: State, k: nat, i: int)
    requires Inv(stories, st) && At(st, k, i) && i < |stories[k].slides| - 1
    ensures NextStep(stories, st) == State(st.sel, Some(Cursor(i + 1, st.viewer.value.progressKey, [i + 1])))
  {
  }

  /** Past the last slide of a story that has a successor: slide 0 of the next story, entered from its start, with a new key. */
  lemma NextCrossesForward(stories: seq<Story>, st: State, k: nat)
    requires Inv(stories, st) && k + 1 < |stories| && At(st, k, |stories[k].slides| - 1)
    ensures NextStep(stories, st) ==
              State(Selection(Some(k + 1), false), Some(Cursor(0, st.viewer.value.progressKey + 1, [0])))
  {
  }

  /** Past the last slide of the last story: the viewer closes and no timeout is left. */
  lemma NextPastLastCloses(stories: seq<Story>, st: State)
    requires Inv(stories, st) && |stories| > 0 && At(st, |stories| - 1, |stories[|stories| - 1].slides| - 1)
    ensures NextStep(stories, st) == State(Selection(None, st.sel.startFromEnd), None)
  {
  }

  /** Inside a story, a backward step shows the previous slide, re-arms the timeout for it and keeps the key. */
  lemma PrevWithinStory(stories: seq<Story>, st: State, k: nat, i: int)
    requires Inv(stories, st) && At(st, k, i) && i > 0
    ensures PrevStep(stories, st) == State(st.sel, Some(Cursor(i - 1, st.viewer.value.progressKey, [i - 1])))
  {
  }

  /** Before slide 0 of a story that has a predecessor: the last slide of the previous story, entered from its end, with a new key. */
  lemma PrevCrossesBackward(stories: seq<Story>, st: State, k: nat)
    requires Inv(stories, st) && 0 < k && At(st, k, 0)
    ensures var last := |stories[k - 1].slides| - 1;
            PrevStep(stories, st) ==
              State(Selection(Some(k - 1), true), Some(Cursor(last, st.viewer.value.progressKey + 1, [last])))
  {
  }

  /** Before slide 0 of the first story: the viewer closes; it does not stay where it is. */
  lemma PrevBeforeFirstCloses(stories: seq<Story>, st: State)
    requires Inv(stories, st) && At(st, 0, 0)
    ensures PrevStep(stories, st) == State(Selection(None, st.sel.startFromEnd), None)
  {
  }

  /**
   While the viewer stays mounted, a forward or backward step bumps the progress key by one
   exactly when it moves to another story, and leaves it alone inside a story.
   */
  lemma KeyBumpsExactlyOnStoryChange(stories: seq<Story>, st: State)
    requires Inv(stories, st) && st.viewer.Some?
    ensures var r := NextStep(stories, st);
            r.viewer.Some? ==>
              r.viewer.value.progressKey ==
                st.viewer.value.progressKey + (if r.sel.selected != st.sel.selected then 1 else 0)
    ensures var r := PrevStep(stories, st);
            r.viewer.Some? ==>
              r.viewer.value.progressKey ==
                st.viewer.value.progressKey + (if r.sel.selected != st.sel.selected then 1 else 0)
  {
  }

  // ---------------------------------------------------------------------------------------------
  // Forward and backward undo each other
  // ---------------------------------------------------------------------------------------------

  /** Anywhere but the very last slide, a backward step after a forward one returns to the same story and slide. */
  lemma PrevUndoesNext(stories: seq<Story>, st: State)
    requires Inv(stories, st) && st.viewer.Some?
    requires !At(st, |stories| - 1, |stories[|stories| - 1].slides| - 1)
    ensures Position(PrevStep(stories, NextStep(stories, st))) == Position(st)
  {
  }

  /** Anywhere but the very first slide, a forward step after a backward one returns to the same story and slide. */
  lemma NextUndoesPrev(stories: seq<Story>, st: State)
    requires Inv(stories, st) && st.viewer.Some? && !At(st, 0, 0)
    ensures Position(NextStep(stories, PrevStep(stories, st))) == Position(st)
  {
  }

  // ---------------------------------------------------------------------------------------------
  // Playback left alone runs to the end and closes
  // ---------------------------------------------------------------------------------------------

  /** The number of slides in stories `k` onward. */
  function SlidesFrom(stories: seq<Story>, k: nat): nat
    decreases |stories| - k
  {
    if k >= |stories| then 0 else |stories[k].slides| + SlidesFrom(stories, k + 1)
  }

  /** How many slides are left to show, the one on screen included; 0 when closed. */
  function Remaining(stories: seq<Story>, st: State): nat
    requires Inv(stories, st)
  {
    match st.sel.selected
    case None => 0
    case Some(k) => |stories[k].slides| - st.viewer.value.index + SlidesFrom(stories, k + 1)
  }

  /** Each forward step, whether it moves inside a story, to the next story or closes, uses up exactly one slide. */
  lemma NextUsesOneSlide(stories: seq<Story>, st: State)
    requires Inv(stories, st) && st.viewer.Some?
    ensures Remaining(stories, NextStep(stories, st)) == Remaining(stories, st) - 1
  {
    var k := st.sel.selected.value;
    if k + 1 < |stories| {
      assert SlidesFrom(stories, k + 1) == |stories[k + 1].slides| + SlidesFrom(stories, k + 2);
    } else {
      assert SlidesFrom(stories, k + 1) == 0;
    }
  }

  /** `m` forward steps in a row, as `m` expiring timeouts produce them. */
  function Run(stories: seq<Story>, st: State, m: nat): (r: State)
    requires Inv(stories, st)
    ensures Inv(stories, r)
    decreases m
  {
    if m == 0 then st else Run(stories, NextStep(stories, st), m - 1)
  }

  /**
   Left alone, the viewer shows every remaining slide: after fewer timeouts than slides remain it
   is still open, and the timeout of the last slide closes it.
   */
  lemma {:induction false} RunClosesAfterRemaining(stories: seq<Story>, st: State, m: nat)
    requires Inv(stories, st) && m <= Remaining(stories, st)
    ensures Remaining(stories, Run(stories, st, m)) == Remaining(stories, st) - m
    ensures Run(stories, st, m).viewer.Some? <==> m < Remaining(stories, st)
    decreases m
  {
    if m > 0 {
      NextUsesOneSlide(stories, st);
      RunClosesAfterRemaining(stories, NextStep(stories, st), m - 1);
    }
    var r := Run(stories, st, m);
    if r.viewer.Some? {
      assert Remaining(stories, r) >= 1;
    }
  }

  /**
   Opening story `k` from its thumbnail and then letting every timeout expire shows all slides of
   stories `k` onward, one per timeout, and closes the viewer after exactly that many timeouts.
   */
  lemma SelectThenPlayAll(stories: seq<Story>, st: State, k: nat)
    requires Inv(stories, st) && st.viewer.None? && k < |stories|
    ensures var started := SelectStep(stories, st, k);
            Remaining(stories, started) == SlidesFrom(stories, k) &&
            Run(stories, started, SlidesFrom(stories, k)).viewer.None? &&
            Run(stories, started, SlidesFrom(stories, k) - 1).viewer.Some?
  {
    var started := SelectStep(stories, st, k);
    RunClosesAfterRemaining(stories, started, SlidesFrom(stories, k));
    RunClosesAfterRemaining(stories, started, SlidesFrom(stories, k) - 1);
  }

  // ---------------------------------------------------------------------------------------------
  // The slide a render reads
  // ---------------------------------------------------------------------------------------------

  /**
   As written, the viewer re-seats its index in an effect that runs after the new story's first
   render. When `nextSlide` hands over from the last slide of story `k` to a shorter story `k + 1`,
   the viewer stays mounted and its first render, which `TapNext` and `TimerFire` return, still
   holds the old index and reads past the end of the new story's slides.
   */
  lemma StaleIndexOnForwardSwitch(stories: seq<Story>, st: State, k: nat)
    requires Inv(stories, st) && k + 1 < |stories| && At(st, k, |stories[k].slides| - 1)
    requires |stories[k + 1].slides| < |stories[k].slides|
    ensures NextStep(stories, st).sel.selected == Some(k + 1) && NextStep(stories, st).viewer.Some?
    ensures NextFirstRead(stories, st) == None
  {
  }

  /**
   Of all forward steps that keep the viewer open, the first render reads no slide exactly on a
   switch from the last slide of a story into a shorter one; otherwise it reads an existing slide.
   */
  lemma StaleReadIffShorterNext(stories: seq<Story>, st: State)
    requires Inv(stories, st) && NextStep(stories, st).viewer.Some?
    ensures var k := st.sel.selected.value;
            NextFirstRead(stories, st).None? <==>
              st.viewer.value.index == |stories[k].slides| - 1 && k + 1 < |stories| &&
              |stories[k + 1].slides| < |stories[k].slides|
  {
  }

  /** A backward step is safe as written: it hands over from slide 0, which every story has. */
  lemma PrevFirstReadExists(stories: seq<Story>, st: State)
    requires Inv(stories, st) && PrevStep(stories, st).viewer.Some?
    ensures PrevFirstRead(stories, st).Some?
  {
  }

  /** The smallest such collection: three slides, then two; the first render of story 1 reads its slide 2. */
  lemma StaleIndexExample()
    ensures var s := Slide("s.jpg", None);
            var stories := [Story("a", "A", [s, s, s]), Story("b", "B", [s, s])];
            var st := State(Selection(Some(0), false), Some(Cursor(2, 1, [2])));
            Inv(stories, st) && NextStep(stories, st).sel.selected == Some(1) &&
            NextStep(stories, st).viewer.Some? && NextFirstRead(stories, st) == None
  {
    var s := Slide("s.jpg", None);
    var stories := [Story("a", "A", [s, s, s]), Story("b", "B", [s, s])];
    var st := State(Selection(Some(0), false), Some(Cursor(2, 1, [2])));
    StaleIndexOnForwardSwitch(stories, st, 0);
  }

  /**
   With the index re-seated in the same step that changes the story, as the step functions do,
   every state the engine settles in renders an existing slide of the selected story.
   */
  lemma SettledRenderShowsSlide(stories: seq<Story>, st: State)
    requires Inv(stories, st) && st.viewer.Some?
    ensures RenderedSlide(stories[st.sel.selected.value], st.viewer.value.index).Some?
    ensures RenderedSlide(stories[st.sel.selected.value], st.viewer.value.index) ==
              Some(stories[st.sel.selected.value].slides[st.viewer.value.index])
  {
  }
}
