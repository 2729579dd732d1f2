/**
 The web-story carousel: it launches the viewer on the story whose thumbnail was clicked, turns
 the viewer's boundary callbacks into "open the adjacent story" or "close", and mounts the
 viewer exactly while a story is selected.

 The first half states the engine as values: the carousel's `Selection`, the `State` of the whole
 engine after an event has settled (every render and effect it causes has run), and one step
 function per event. The second half is the component itself, a class whose methods are proved
 to move its fields, and those of the viewer it mounts, as the step functions say.
 */
module Carousel {
  import opened Wrappers
  import opened StoryData
  import opened Viewer

  // ---------------------------------------------------------------------------------------------
  // The carousel's own state and its handlers
  // ---------------------------------------------------------------------------------------------

  /** `selectedIndex` (None: no story open, the viewer is not mounted) and `startFromEnd`. */
  datatype Selection = Selection(selected: Option<nat>, startFromEnd: bool)

  /** The selection names a story of a collection of `n`, or none. */
  predicate InRange(n: nat, s: Selection)
  {
    s.selected.Some? ==> s.selected.value < n
  }

  /** `handleNextStory`: open the following story at its first slide, or close after the last one. */
  function OnNextStory(n: nat, s: Selection): (r: Selection)
    ensures s.selected.None? ==> r == s
    ensures s.selected.Some? ==> InRange(n, r)
    ensures s.selected.Some? && s.selected.value + 1 < n ==> r == Selection(Some(s.selected.value + 1), false)
    ensures s.selected.Some? && s.selected.value + 1 >= n ==> r.selected.None? && r.startFromEnd == s.startFromEnd
  {
    match s.selected
    case None => s
    case Some(k) =>
      if k + 1 < n then Selection(Some(k + 1), false) else Selection(None, s.startFromEnd)
  }

  /** `handlePrevStory`: open the preceding story at its last slide, or close before the first one. */
  function OnPrevStory(n: nat, s: Selection): (r: Selection)
    ensures s.selected.None? ==> r == s
    ensures InRange(n, s) ==> InRange(n, r)
    ensures s.selected.Some? && s.selected.value > 0 ==> r == Selection(Some(s.selected.value - 1), true)
    ensures s.selected.Some? && s.selected.value == 0 ==> r.selected.None? && r.startFromEnd == s.startFromEnd
  {
    match s.selected
    case None => s
    case Some(k) =>
      if k - 1 >= 0 then Selection(Some(k - 1), true) else Selection(None, s.startFromEnd)
  }

  // ---------------------------------------------------------------------------------------------
  // The engine as values
  // ---------------------------------------------------------------------------------------------

  /**
   The mounted viewer seen from outside: the slide on screen, the progress key, and the slide
   each of its pending timeouts will advance from.
   */
  datatype Cursor = Cursor(index: int, progressKey: nat, pending: seq<int>)

  /** The whole engine once an event has settled. */
  datatype State = State(sel: Selection, viewer: Option<Cursor>)

  /**
   The engine's invariant: the viewer is mounted exactly while a story is selected; then the
   story exists, the index is one of its slides, exactly one timeout is pending and it will
   advance from the slide on screen, and the progress bars have been keyed at least once.
   */
  predicate Inv(stories: seq<Story>, st: State)
  {
    WellFormed(stories) &&
    (st.sel.selected.Some? <==> st.viewer.Some?) &&
    (st.sel.selected.Some? ==>
      st.sel.selected.value < |stories| &&
      0 <= st.viewer.value.index < |stories[st.sel.selected.value].slides| &&
      st.viewer.value.pending == [st.viewer.value.index] &&
      st.viewer.value.progressKey >= 1)
  }

  /**
   The viewer after the carousel re-renders with selection `after`, its previous render having
   shown `before`: unmounted when nothing is selected; freshly mounted and seated when it was not
   mounted; untouched, its pending timeout left as it is, when the selection is the same; otherwise the
   reset effect has re-seated the index and bumped the progress key.
   */
  function Settle(stories: seq<Story>, before: Selection, viewer: Option<Cursor>, after: Selection): (r: Option<Cursor>)
    requires WellFormed(stories) && InRange(|stories|, after)
    requires viewer.Some? ==>
               before.selected.Some? && before.selected.value < |stories| && viewer.value.progressKey >= 1 &&
               0 <= viewer.value.index < |stories[before.selected.value].slides|
    ensures Inv(stories, State(after, r))
    ensures r.Some? && viewer.None? ==> r.value.progressKey == 1
    ensures r.Some? && viewer.Some? ==>
              r.value.progressKey == viewer.value.progressKey + (if after == before then 0 else 1)
  {
    match after.selected
    case None => None
    case Some(k) =>
      var seat := SeatIndex(stories[k], after.startFromEnd);
      if viewer.None? then Some(Cursor(seat, 1, [seat]))
      else if after == before then Some(Cursor(viewer.value.index, viewer.value.progressKey, [viewer.value.index]))
      else Some(Cursor(seat, viewer.value.progressKey + 1, [seat]))
  }

  /** A thumbnail click on story `idx`: select it, entering at its first slide. */
  function SelectStep(stories: seq<Story>, st: State, idx: nat): (r: State)
    requires Inv(stories, st) && idx < |stories|
    ensures Inv(stories, r)
    ensures r.sel == Selection(Some(idx), false)
    ensures st.sel != r.sel ==> r.viewer.value.index == 0
    ensures st.sel == r.sel ==> r == st
  {
    var after := Selection(Some(idx), false);
    State(after, Settle(stories, st.sel, st.viewer, after))
  }

  /** The close button, or the dialog's own dismissal: deselect, which unmounts the viewer. */
  function CloseStep(stories: seq<Story>, st: State): (r: State)
    requires Inv(stories, st)
    ensures Inv(stories, r)
    ensures r.sel.selected.None? && r.viewer.None? && r.sel.startFromEnd == st.sel.startFromEnd
  {
    var after := Selection(None, st.sel.startFromEnd);
    State(after, Settle(stories, st.sel, st.viewer, after))
  }

  /**
   A forward tap or the pending timeout's expiry: `nextSlide` on the story on screen, and, at its
   last slide, `handleNextStory` followed by the carousel's re-render.
   */
  function NextStep(stories: seq<Story>, st: State): (r: State)
    requires Inv(stories, st)
    ensures Inv(stories, r)
  {
    match st.viewer
    case None => st
    case Some(c) =>
      var o := NextSlideOutcome(Some(stories[st.sel.selected.value]), c.index);
      if o.SetIndex? then State(st.sel, Some(Cursor(o.index, c.progressKey, [o.index])))
      else
        var after := OnNextStory(|stories|, st.sel);
        State(after, Settle(stories, st.sel, st.viewer, after))
  }

  /**
   A backward tap: `prevSlide` on the story on screen, and, at its first slide,
   `handlePrevStory` followed by the carousel's re-render.
   */
  function PrevStep(stories: seq<Story>, st: State): (r: State)
    requires Inv(stories, st)
    ensures Inv(stories, r)
  {
    match st.viewer
    case None => st
    case Some(c) =>
      var o := PrevSlideOutcome(Some(stories[st.sel.selected.value]), c.index);
      if o.SetIndex? then State(st.sel, Some(Cursor(o.index, c.progressKey, [o.index])))
      else
        var after := OnPrevStory(|stories|, st.sel);
        State(after, Settle(stories, st.sel, st.viewer, after))
  }

  /**
   The slide the viewer's first render after a forward step reads, as the code is written: the
   index `nextSlide` left, looked up in the story the carousel now selects, before the reset
   effect re-seats it. None when no viewer renders (it was closed, or the step closes it), and
   None when that index is past the end of the story, where the read throws.
   */
  function NextFirstRead(stories: seq<Story>, st: State): Option<Slide>
    requires Inv(stories, st)
  {
    match st.viewer
    case None => None
    case Some(c) =>
      var o := NextSlideOutcome(Some(stories[st.sel.selected.value]), c.index);
      var after := NextStep(stories, st).sel;
      if after.selected.None? then None
      else RenderedSlide(stories[after.selected.value], if o.SetIndex? then o.index else c.index)
  }

  /** The same for a backward step: the index `prevSlide` left, in the story now selected. */
  function PrevFirstRead(stories: seq<Story>, st: State): Option<Slide>
    requires Inv(stories, st)
  {
    match st.viewer
    case None => None
    case Some(c) =>
      var o := PrevSlideOutcome(Some(stories[st.sel.selected.value]), c.index);
      var after := PrevStep(stories, st).sel;
      if after.selected.None? then None
      else RenderedSlide(stories[after.selected.value], if o.SetIndex? then o.index else c.index)
  }

  // ---------------------------------------------------------------------------------------------
  // The component
  // ---------------------------------------------------------------------------------------------

  class WebstoriesCarousel {
    /** The stories the carousel was given. */
    const webstories: seq<Story>
    var selectedIndex: Option<nat>
    var startFromEnd: bool
    /** The mounted viewer, present exactly while a story is selected. */
    var viewer: WebstoryViewer?

    /** The carousel's selection as a value. */
    ghost function Sel(): Selection
      reads this
    {
      Selection(selectedIndex, startFromEnd)
    }

    /** The mounted viewer as a value. */
    ghost function ViewerCursor(): Option<Cursor>
      reads this, viewer
    {
      if viewer == null then None
      else Some(Cursor(viewer.index, viewer.progressKey, PendingSlides(viewer.timers)))
    }

    /** The engine as a value. */
    ghost function Model(): State
      reads this, viewer
    {
      State(Sel(), ViewerCursor())
    }

    /**
     The engine's invariant, and the viewer's own: its timer discipline holds and its last
     commit saw it open on the selected story with the current flag and index.
     */
    ghost predicate Valid()
      reads this, viewer
    {
      Inv(webstories, Model()) &&
      (viewer != null ==>
        viewer.Valid() &&
        viewer.committed == Some(Deps(true, Some(webstories[selectedIndex.value]), startFromEnd, viewer.index)))
    }

    /** What holds of the mounted viewer when the carousel re-renders after its last render showed `before`. */
    ghost predicate ReadyToCommit(before: Selection)
      reads this, viewer
      requires viewer != null
    {
      viewer.Valid() &&
      before.selected.Some? && before.selected.value < |webstories| &&
      0 <= viewer.index < |webstories[before.selected.value].slides| && viewer.progressKey >= 1 &&
      viewer.committed.Some? && viewer.committed.value.open &&
      viewer.committed.value.webstory == Some(webstories[before.selected.value]) &&
      viewer.committed.value.startFromEnd == before.startFromEnd &&
      (viewer.committed.value.index == viewer.index && selectedIndex == before.selected ==>
        PendingSlides(viewer.timers) == [viewer.index])
    }

    /** The carousel starts with nothing selected and no viewer mounted. */
    constructor (webstories: seq<Story>)
      requires WellFormed(webstories)
      ensures Valid()
      ensures this.webstories == webstories && Model() == State(Selection(None, false), None)
    {
      this.webstories := webstories;
      selectedIndex := None;
      startFromEnd := false;
      viewer := null;
    }

    /** `handleNextStory`: only the carousel's two state fields change. */
    method HandleNextStory()
      modifies this`selectedIndex, this`startFromEnd
      ensures Sel() == OnNextStory(|webstories|, old(Sel()))
    {
      if selectedIndex.None? {
        return;
      }
      var nextIndex := selectedIndex.value + 1;
      if nextIndex < |webstories| {
        selectedIndex := Some(nextIndex);
        startFromEnd := false;
      } else {
        selectedIndex := None;
      }
    }

    /** `handlePrevStory`: only the carousel's two state fields change. */
    method HandlePrevStory()
      modifies this`selectedIndex, this`startFromEnd
      ensures Sel() == OnPrevStory(|webstories|, old(Sel()))
    {
      if selectedIndex.None? {
        return;
      }
      var prevIndex := selectedIndex.value - 1;
      if prevIndex >= 0 {
        selectedIndex := Some(prevIndex);
        startFromEnd := true;
      } else {
        selectedIndex := None;
      }
    }

    /**
     The carousel's re-render after its state changed: the viewer is mounted while a story is
     selected and is given that story, `open` set and the entry flag; otherwise it is unmounted,
     and the cleanup of its timer effect clears the timeout it had pending. `shown` is the slide the viewer's first render reads: a new viewer starts at index 0, a
     mounted one still holds its index. A mounted viewer stays the same component, and when its
     timer effect re-runs, the timeout left pending is a new full-length one.
     */
    method Commit(ghost before: Selection) returns (shown: Option<Slide>)
      requires WellFormed(webstories) && InRange(|webstories|, Sel())
      requires viewer != null ==> ReadyToCommit(before)
      modifies this`viewer, viewer
      ensures Valid()
      ensures Model() == State(old(Sel()), Settle(webstories, before, old(ViewerCursor()), old(Sel())))
      ensures shown == if selectedIndex.None? then None
                       else RenderedSlide(webstories[selectedIndex.value], if old(viewer) == null then 0 else old(viewer.index))
      ensures old(viewer) == null && viewer != null ==> fresh(viewer)
      ensures old(viewer) != null && viewer != null ==> viewer == old(viewer)
      ensures old(viewer) != null && viewer != null &&
              (TimerDue(old(viewer.committed), old(viewer.index), true, Some(webstories[selectedIndex.value])) ||
               viewer.index != old(viewer.index)) ==>
                |viewer.timers| == 1 && viewer.timers[0] !in old(viewer.timers) &&
                viewer.timers[0].id >= old(viewer.nextHandle) && viewer.timers[0].delay == SlideDuration
      ensures old(viewer) != null && viewer == null ==> old(viewer).timers == [] && old(viewer).handle == None
    {
      shown := None;
      if selectedIndex.Some? {
        var k := selectedIndex.value;
        if viewer == null {
          viewer := new WebstoryViewer();
        } else {
          SameStoryIffSamePosition(webstories, before.selected.value, k);
        }
        shown := viewer.Render(true, Some(webstories[k]), startFromEnd);
      } else if viewer != null {
        viewer.Unmount();
        viewer := null;
      }
    }

    /**
     A click on the thumbnail of story `idx`. A viewer mounted by it is new and its first render
     reads slide 0; one already showing another story stays mounted, its first render reads the
     index it holds, and its timeout is replaced by a new full-length one.
     */
    method SelectThumbnail(idx: nat) returns (shown: Option<Slide>)
      requires Valid() && idx < |webstories|
      modifies this, viewer
      ensures Valid()
      ensures Model() == SelectStep(webstories, old(Model()), idx)
      ensures shown == RenderedSlide(webstories[idx], if old(viewer) == null then 0 else old(viewer.index))
      ensures old(viewer) == null ==> fresh(viewer)
      ensures old(viewer) != null && old(selectedIndex) != Some(idx) ==>
                viewer == old(viewer) && |viewer.timers| == 1 && viewer.timers[0] !in old(viewer.timers) &&
                viewer.timers[0].delay == SlideDuration
    {
      ghost var before := Sel();
      if viewer != null && before.selected != Some(idx) {
        SameStoryIffSamePosition(webstories, before.selected.value, idx);
      }
      selectedIndex := Some(idx);
      startFromEnd := false;
      shown := Commit(before);
    }

    /** The close button or the dialog's dismissal. */
    method Close()
      requires Valid()
      modifies this, viewer
      ensures Valid()
      ensures Model() == CloseStep(webstories, old(Model()))
      ensures old(viewer) != null && viewer == null ==> old(viewer).timers == [] && old(viewer).handle == None
    {
      ghost var before := Sel();
      selectedIndex := None;
      var _ := Commit(before);
    }

    /**
     A forward tap on the slide or on the right chevron. `shown` is the slide the viewer's first
     render reads; while the viewer stays open, the step always leaves a new full-length timeout.
     */
    method TapNext() returns (shown: Option<Slide>)
      requires Valid()
      modifies this, viewer
      ensures Valid()
      ensures Model() == NextStep(webstories, old(Model()))
      ensures shown == NextFirstRead(webstories, old(Model()))
      ensures old(viewer) != null && viewer != null ==>
                viewer == old(viewer) && |viewer.timers| == 1 && viewer.timers[0] !in old(viewer.timers) &&
                viewer.timers[0].delay == SlideDuration
      ensures old(viewer) != null && viewer == null ==> old(viewer).timers == [] && old(viewer).handle == None
    {
      shown := None;
      if viewer != null {
        ghost var before := Sel();
        var k := selectedIndex.value;
        var outcome := viewer.NextSlide(Some(webstories[k]));
        if outcome == CallNextStory {
          HandleNextStory();
          if selectedIndex.Some? {
            SameStoryIffSamePosition(webstories, k, selectedIndex.value);
          }
        }
        shown := Commit(before);
      }
    }

    /** A backward tap on the left chevron, with the same two guarantees as `TapNext`. */
    method TapPrev() returns (shown: Option<Slide>)
      requires Valid()
      modifies this, viewer
      ensures Valid()
      ensures Model() == PrevStep(webstories, old(Model()))
      ensures shown == PrevFirstRead(webstories, old(Model()))
      ensures old(viewer) != null && viewer != null ==>
                viewer == old(viewer) && |viewer.timers| == 1 && viewer.timers[0] !in old(viewer.timers) &&
                viewer.timers[0].delay == SlideDuration
      ensures old(viewer) != null && viewer == null ==> old(viewer).timers == [] && old(viewer).handle == None
    {
      shown := None;
      if viewer != null {
        ghost var before := Sel();
        var k := selectedIndex.value;
        var outcome := viewer.PrevSlide(Some(webstories[k]));
        if outcome == CallPrevStory {
          HandlePrevStory();
          if selectedIndex.Some? {
            SameStoryIffSamePosition(webstories, k, selectedIndex.value);
          }
        }
        shown := Commit(before);
      }
    }

    /**
     The pending timeout expires and its callback runs `nextSlide`. The timeout that fires is
     the one scheduled for the slide on screen, so the `nextSlide` it captured acts on the current
     index and story; the cleanup of the re-render then clears its (spent) handle. While the viewer
     stays open, the timeout left pending is a new full-length one, not the one that fired.
     */
    method TimerFire() returns (fired: Option<Timer>, shown: Option<Slide>)
      requires Valid()
      modifies this, viewer
      ensures Valid()
      ensures old(viewer) == null <==> fired.None?
      ensures fired.Some? ==> old(viewer.timers) == [fired.value]
      ensures fired.Some? ==> fired.value.slide == old(viewer.index) && fired.value.delay == SlideDuration
      ensures Model() == NextStep(webstories, old(Model()))
      ensures shown == NextFirstRead(webstories, old(Model()))
      ensures old(viewer) != null && viewer != null ==>
                viewer == old(viewer) && |viewer.timers| == 1 && viewer.timers[0] !in old(viewer.timers) &&
                viewer.timers[0] != fired.value && viewer.timers[0].delay == SlideDuration
      ensures old(viewer) != null && viewer == null ==> old(viewer).timers == [] && old(viewer).handle == None
    {
      fired := None;
      shown := None;
      if viewer != null {
        fired := Some(viewer.timers[0]);
        ghost var before := Sel();
        var k := selectedIndex.value;
        var outcome := viewer.NextSlide(Some(webstories[k]));
        if outcome == CallNextStory {
          HandleNextStory();
          if selectedIndex.Some? {
            SameStoryIffSamePosition(webstories, k, selectedIndex.value);
          }
        }
        shown := Commit(before);
      }
    }
  }
}
