# Web-story playback engine

A Dafny model of the web-story player of a news site: the carousel that opens a story from
its thumbnail (`components/ui/webstory-carousel.tsx`) and the full-screen viewer that plays the
story's slides one after another (`components/ui/webstory-viewer.tsx`).

The viewer holds a slide `index` and a `progressKey`, and keeps one 10 000 ms timeout pending
that advances the slide. `nextSlide` and `prevSlide` move the index inside the story. At either
end they call the carousel's `onNextStory` or `onPrevStory`. The carousel holds `selectedIndex`
(null when closed) and `startFromEnd`. It answers those callbacks by selecting the adjacent story
or by closing. It mounts the viewer exactly while a story is selected. When the viewer is
opened or given a new story, an effect re-seats the index at the first slide, or at the last
slide when `startFromEnd` is set, and bumps `progressKey`.

Files:

- `wrappers.dfy`: `Option`.
- `story_data.dfy`: slides, stories and the well-formed collection.
- `viewer.dfy`, module `Viewer`: the progress bars (a pure projection of the index); the
  outcome of `nextSlide`/`prevSlide`; the index the reset effect seats; the slide a render
  reads; timeouts and effect dependencies; and the class `WebstoryViewer`. Its `Render` re-runs each of the two effects
  when its dependencies changed since the last commit, as React does.
- `carousel.dfy`, module `Carousel`: the two handlers as functions on the carousel's
  `Selection`. Then the engine as a value: a `State` after an event has settled, its invariant
  `Inv`, and one step function per event. Then the class `WebstoriesCarousel`, whose methods are
  proved to move the carousel and its viewer exactly as the step functions say.
- `playback.dfy`, module `Playback`: end-to-end properties. These cover where each step lands,
  when the progress key moves, how forward and backward steps undo each other, and that
  playback left alone shows every remaining slide and then closes. The module also holds the
  finding below.

`Inv` is the central invariant. The viewer is mounted exactly while a story is selected. The
story exists and the index is one of its slides. Exactly one timeout is pending, and it
advances from the slide on screen. Every step function preserves `Inv`. In the classes, the
effect re-runs cancel the previous timeout before they schedule the next one. So a timeout
scheduled for a slide the viewer has since left never fires.

A backward step on the first slide of the first story closes the viewer (`handlePrevStory`,
lines 34-35). One might expect a no-op there; the model follows the code. `Playback.PrevBeforeFirstCloses` states this.

## Model

| member | source | states |
|---|---|---|
| `StoryData.WellFormed` | components/ui/webstory-carousel.tsx:47-48 | a collection the carousel can show: every story has at least one slide, and no two stories share an id (the thumbnails are keyed by id) |
| `StoryData.SameStoryIffSamePosition` | components/ui/webstory-carousel.tsx:47-48 | with ids unique (they key the thumbnails), two positions of the collection hold the same story exactly when they are the same position, so a change of `webstory` is a change of selected story |
| `Viewer.BarState` | components/ui/webstory-viewer.tsx:87-91 | bar `i` is Done iff `i < index`, Active iff `i == index`, Pending iff `i > index` |
| `Viewer.Bars` | components/ui/webstory-viewer.tsx:83-95 | the row has one bar per slide, and bar `i` is `BarState(i, index)` |
| `Viewer.DoneCount` | components/ui/webstory-viewer.tsx:83-95 | for any index, the number of Done bars is the index clamped to the row: the slides before the index |
| `Viewer.ActiveCount` | components/ui/webstory-viewer.tsx:83-95 | for any index, exactly one bar is Active when the index is a slide of the row, and none otherwise |
| `Viewer.PendingCount` | components/ui/webstory-viewer.tsx:83-95 | for any index, the Pending bars are the slides after the index |
| `Viewer.BarsOfCursor` | components/ui/webstory-viewer.tsx:83-95 | with the index on a slide, exactly one bar is Active, `index` bars are Done and `count - 1 - index` are Pending |
| `Viewer.NextSlideOutcome` | components/ui/webstory-viewer.tsx:48-52 | with no story nothing happens; `onNextStory` is called iff the index is at or past the last slide, and the index is then unchanged; otherwise the index becomes `index + 1`, which stays a slide of the story |
| `Viewer.PrevSlideOutcome` | components/ui/webstory-viewer.tsx:54-58 | with no story nothing happens; `onPrevStory` is called iff the index is at or before 0, and the index is then unchanged; otherwise the index becomes `index - 1`, which stays a slide of the story |
| `Viewer.PrevUndoesNextSlide` | components/ui/webstory-viewer.tsx:48-58 | inside a story, `prevSlide` after a moving `nextSlide` restores the index |
| `Viewer.NextUndoesPrevSlide` | components/ui/webstory-viewer.tsx:48-58 | inside a story, `nextSlide` after a moving `prevSlide` restores the index |
| `Viewer.SeatIndex` | components/ui/webstory-viewer.tsx:33-35 | the re-seated index is `slides.length - 1` with `startFromEnd` and 0 without, and it is a slide of a non-empty story |
| `Viewer.NextRunCrossesAtEnd` | components/ui/webstory-viewer.tsx:48-52 | `k` calls of `nextSlide` from slide `i` step forward to the last slide and then call `onNextStory` once per further call; `count` calls from slide 0 make `count - 1` steps and one call |
| `Viewer.Cancel` | components/ui/webstory-viewer.tsx:45 | `clearTimeout(timer)` removes exactly the timeouts with that handle |
| `Viewer.CancelOwn` | components/ui/webstory-viewer.tsx:45 | clearing the handle every pending timeout carries leaves no timeout pending |
| `Viewer.RenderedSlide` | components/ui/webstory-viewer.tsx:110 | a render reads a slide exactly when the index is a position of the story's slides, and then it is `slides[index]`; otherwise the read is `undefined` and `.imageUrl` throws |
| `Viewer.ResetDue` | components/ui/webstory-viewer.tsx:38 | the reset effect re-runs on the first commit and whenever `open`, `webstory` or `startFromEnd` differs from the last commit |
| `Viewer.TimerDue` | components/ui/webstory-viewer.tsx:46 | the timer effect re-runs on the first commit and whenever `index`, `open` or `webstory` differs from the last commit; `startFromEnd` is not among them |
| `Viewer.WebstoryViewer.Valid` | components/ui/webstory-viewer.tsx:40-46 | every pending timeout is the one the last timer-effect run scheduled, with delay `SlideDuration`, so at most one is pending |
| `Viewer.WebstoryViewer.constructor` | components/ui/webstory-viewer.tsx:27-28 | a mounted viewer starts at index 0, progress key 0, with no timeout and no commit |
| `Viewer.WebstoryViewer.NextSlide` | components/ui/webstory-viewer.tsx:48-52 | the method's outcome and new index are those of `NextSlideOutcome` |
| `Viewer.WebstoryViewer.PrevSlide` | components/ui/webstory-viewer.tsx:54-58 | the method's outcome and new index are those of `PrevSlideOutcome` |
| `Viewer.WebstoryViewer.ResetEffect` | components/ui/webstory-viewer.tsx:32-38 | open with a story: the index is `SeatIndex` and the progress key grows by exactly 1; otherwise nothing changes |
| `Viewer.WebstoryViewer.TimerEffect` | components/ui/webstory-viewer.tsx:40-46 | the previous run's timeout is cleared first; open with a story, exactly one new 10 000 ms timeout for the rendered slide is pending; otherwise none is pending |
| `Viewer.WebstoryViewer.Render` | components/ui/webstory-viewer.tsx:31-46 | given a story, the render reads `RenderedSlide` at the index it holds before the effects run, whether or not `open` is set; an effect runs only when its dependencies changed; the index and key move only through the reset effect; after any re-run of the timer effect, exactly one timeout is pending and it is for the current index, or none when closed or without a story; open with a story, that timeout is a new one (not any timeout pending before, with a handle not used before) of the full `SlideDuration`; without a re-run the pending timeouts and handles are untouched |
| `Viewer.WebstoryViewer.Unmount` | components/ui/webstory-viewer.tsx:45 | unmounting leaves no timeout pending |
| `Carousel.OnNextStory` | components/ui/webstory-carousel.tsx:17-26 | nothing changes when no story is selected; otherwise the next story is selected with `startFromEnd = false` when it exists, else the selection is cleared; the result is always in range |
| `Carousel.OnPrevStory` | components/ui/webstory-carousel.tsx:28-37 | nothing changes when no story is selected; otherwise the previous story is selected with `startFromEnd = true` when it exists, else the selection is cleared (the viewer closes) |
| `Carousel.Inv` | components/ui/webstory-carousel.tsx:70-79 | the engine's invariant: the viewer is mounted exactly while a story is selected; then the story exists, the index is one of its slides, exactly one timeout is pending and it advances from the slide on screen, and the bars have been keyed at least once |
| `Carousel.Settle` | components/ui/webstory-carousel.tsx:70-79 | after the carousel re-renders, the viewer is mounted iff a story is selected, its index is a slide of that story, one timeout is pending for it, and its key is 1 on a fresh mount, unchanged for the same selection, and one more otherwise |
| `Carousel.SelectStep` | components/ui/webstory-carousel.tsx:51-54 | a thumbnail click selects story `idx` with `startFromEnd = false` and keeps the invariant; a new selection shows slide 0, the same selection changes nothing |
| `Carousel.CloseStep` | components/ui/webstory-carousel.tsx:73 | closing from any state clears the selection and unmounts the viewer, leaving no timeout |
| `Carousel.NextStep` | components/ui/webstory-carousel.tsx:17-26 | a forward tap or an expiring timeout keeps the invariant: cursor in range and exactly one timeout, for the slide on screen, while open |
| `Carousel.PrevStep` | components/ui/webstory-carousel.tsx:28-37 | a backward tap keeps the invariant |
| `Carousel.NextFirstRead` | components/ui/webstory-viewer.tsx:110 | as written, the slide the viewer's first render after a forward step reads: the index `nextSlide` left, in the story now selected, before the reset effect re-seats it |
| `Carousel.PrevFirstRead` | components/ui/webstory-viewer.tsx:110 | the same for a backward step, with the index `prevSlide` left |
| `Carousel.WebstoriesCarousel.Valid` | components/ui/webstory-carousel.tsx:70-79 | the component's state satisfies `Inv`, and the mounted viewer keeps its timer discipline and last committed open, on the selected story, with the current flag and index |
| `Carousel.WebstoriesCarousel.constructor` | components/ui/webstory-carousel.tsx:14-15 | the carousel starts with nothing selected, `startFromEnd` false and no viewer |
| `Carousel.WebstoriesCarousel.HandleNextStory` | components/ui/webstory-carousel.tsx:17-26 | the carousel's two fields move as `OnNextStory` says, and nothing else changes |
| `Carousel.WebstoriesCarousel.HandlePrevStory` | components/ui/webstory-carousel.tsx:28-37 | the carousel's two fields move as `OnPrevStory` says, and nothing else changes |
| `Carousel.WebstoriesCarousel.Commit` | components/ui/webstory-carousel.tsx:70-79 | the viewer is mounted, re-rendered with the selected story, `open` and the flag, or unmounted, and the engine ends as `Settle` says; the viewer's first render reads slide 0 when newly mounted and the held index otherwise; a mounted viewer stays the same component, and when its timer effect re-runs the pending timeout is new and full length; a viewer it unmounts is left with no timeout pending, its cleanup having cleared it |
| `Carousel.WebstoriesCarousel.SelectThumbnail` | components/ui/webstory-carousel.tsx:51-54 | the carousel and its viewer end as `SelectStep` says; a viewer it mounts is new and its first render reads slide 0 of story `idx`; a viewer that showed another story stays mounted, its first render reads the index it holds in story `idx`, and its pending timeout is replaced by a new full-length one |
| `Carousel.WebstoriesCarousel.Close` | components/ui/webstory-carousel.tsx:73 | the carousel and its viewer end as `CloseStep` says, and the unmounted viewer is left with no timeout pending |
| `Carousel.WebstoriesCarousel.TapNext` | components/ui/webstory-viewer.tsx:141-150 | `nextSlide`, then `handleNextStory` at the last slide, then the re-render, end as `NextStep` says; the slide the first render reads is `NextFirstRead`; while the viewer stays open, the pending timeout is a new full-length one; when the step closes the viewer, its timeout is cleared |
| `Carousel.WebstoriesCarousel.TapPrev` | components/ui/webstory-viewer.tsx:130-139 | `prevSlide`, then `handlePrevStory` at the first slide, then the re-render, end as `PrevStep` says; the slide the first render reads is `PrevFirstRead`; while the viewer stays open, the pending timeout is a new full-length one; when the step closes the viewer, its timeout is cleared |
| `Carousel.WebstoriesCarousel.TimerFire` | components/ui/webstory-viewer.tsx:43 | the timeout that fires exists exactly while a story is open, is the one timeout that was pending, was scheduled for the slide on screen with delay 10 000 ms, and its `nextSlide` ends as `NextStep` says; the first render reads `NextFirstRead`; while the viewer stays open, the pending timeout is a new full-length one, not the one that fired; when the step closes the viewer, its timeout is cleared |
| `Playback.NextWithinStory` | components/ui/webstory-viewer.tsx:50 | inside a story, a forward step shows the next slide, re-arms the timeout for it, and keeps the progress key |
| `Playback.NextCrossesForward` | components/ui/webstory-carousel.tsx:17-22 | past the last slide of story `k < n - 1`: slide 0 of story `k + 1`, `startFromEnd` false, key one higher, one timeout for slide 0 |
| `Playback.NextPastLastCloses` | components/ui/webstory-carousel.tsx:23-25 | past the last slide of the last story the viewer closes and no timeout is left |
| `Playback.PrevWithinStory` | components/ui/webstory-viewer.tsx:56 | inside a story, a backward step shows the previous slide, re-arms the timeout for it, and keeps the progress key |
| `Playback.PrevCrossesBackward` | components/ui/webstory-carousel.tsx:28-33 | before slide 0 of story `k > 0`: the last slide of story `k - 1`, `startFromEnd` true, key one higher |
| `Playback.PrevBeforeFirstCloses` | components/ui/webstory-carousel.tsx:34-36 | before slide 0 of story 0 the viewer closes |
| `Playback.KeyBumpsExactlyOnStoryChange` | components/ui/webstory-viewer.tsx:32-38 | while the viewer stays open, a forward or backward step raises the progress key by one exactly when the story changes |
| `Playback.PrevUndoesNext` | components/ui/webstory-carousel.tsx:17-37 | anywhere but the very last slide, back after forward returns to the same story and slide, across story boundaries too |
| `Playback.NextUndoesPrev` | components/ui/webstory-carousel.tsx:17-37 | anywhere but the very first slide, forward after back returns to the same story and slide |
| `Playback.NextUsesOneSlide` | components/ui/webstory-viewer.tsx:48-52 | each forward step uses up exactly one of the slides left to show, whether it moves, switches story or closes |
| `Playback.Run` | components/ui/webstory-viewer.tsx:40-46 | any number of expiring timeouts in a row keeps the invariant |
| `Playback.RunClosesAfterRemaining` | components/ui/webstory-carousel.tsx:17-26 | left alone, the viewer stays open for fewer timeouts than slides remain, and the last slide's timeout closes it |
| `Playback.SelectThenPlayAll` | components/ui/webstory-carousel.tsx:51-54 | opened on story `k` and left alone, the viewer shows every slide of stories `k` onward and closes after exactly that many timeouts |
| `Playback.StaleIndexOnForwardSwitch` | components/ui/webstory-viewer.tsx:32-38 | as written, a forward step from the last slide of story `k` into a shorter story `k + 1` keeps the viewer mounted, and its first render (`NextFirstRead`, which `TapNext` and `TimerFire` return) reads no slide |
| `Playback.StaleReadIffShorterNext` | components/ui/webstory-viewer.tsx:32-38 | of the forward steps that keep the viewer open, the first render reads no slide exactly on a switch from a last slide into a shorter story |
| `Playback.PrevFirstReadExists` | components/ui/webstory-viewer.tsx:54-58 | as written, the first render after any backward step that keeps the viewer open reads an existing slide |
| `Playback.StaleIndexExample` | components/ui/webstory-viewer.tsx:110 | stories of 3 and 2 slides: leaving slide 2 of story 0 keeps the viewer on story 1, and its first render reads story 1's slide 2, which does not exist |
| `Playback.SettledRenderShowsSlide` | components/ui/webstory-viewer.tsx:110 | with the index re-seated in the same step as the story switch, every settled state renders an existing slide of the selected story |

## Findings

| source | as written | input that shows it | evidently intended | confidence | as-written member | corrected member |
|---|---|---|---|---|---|---|
| components/ui/webstory-viewer.tsx:32-38 | The index is re-seated in an effect, after the first render of the new story. That render reads `webstory.slides[index].imageUrl` (line 110) with the previous story's index. | Stories of 3 and 2 slides. Open story 0, advance to slide 2, then advance again. Story 1's first render reads `slides[2]`, which is `undefined`, so `.imageUrl` throws. | Story 1 is first shown at its seated slide 0. | medium; not executed | `Playback.StaleIndexOnForwardSwitch` over `Carousel.NextFirstRead`, the read `Carousel.WebstoriesCarousel.TapNext` returns (with `Playback.StaleIndexExample`) | `Playback.SettledRenderShowsSlide` over `Carousel.NextStep` |

The step functions re-seat the index in the same step that changes the story. That is the
corrected behaviour, and the rest of the model uses it. The read as written is still modelled.
`Viewer.WebstoryViewer.Render` returns the slide its first render reads with the index it
holds. `TapNext` and `TimerFire` return that read, and their contracts equate it with
`Carousel.NextFirstRead`. On the input above that read is None. In the source the read throws.
That render stops, nothing commits, neither effect at lines 32-46 runs, and React tears the
tree down to the nearest error boundary. The model's `Render` does not throw and goes on to
the commit, so on that input the state `TapNext` and `TimerFire` reach is the corrected one,
not the source's. Into a story at least as long, the first render shows the new story's slide
at the old index until the reset effect re-seats it. A backward switch is safe as written,
because it always leaves slide 0, which every story has (`Playback.PrevFirstReadExists`).

## Left out

- Rendering: the Dialog and Transition, the framer-motion animations, `next/image` and the
  chevron and slide markup. Only the cursor values they read are modelled, plus the slide a
  render reads (`Viewer.RenderedSlide`).
- Wall-clock time: a timeout is a pending entry with its delay. Expiry is the `TimerFire`
  event. React's scheduling of renders and effects is reduced to one settled step per event.
  `Viewer.WebstoryViewer.Render` keeps the order of the effects inside a commit.
- Carousel.WebstoriesCarousel.TimerFire: the spent timeout stays in the viewer's queue until the
  cleanup of the re-render clears it. The host drops it when it fires, and clearing a spent
  handle does nothing, so the queue after the event is the same.
- Carousel.WebstoriesCarousel.TapNext: on a switch from a last slide into a shorter story, the
  state it ends in is the settled, corrected one of `NextStep`. In the source the first render
  throws and nothing after it happens; only the failing read (`shown` is None) is modelled.
- Carousel.WebstoriesCarousel.TimerFire: the same as `TapNext` for a shorter next story.
- Carousel.Cursor keeps the slide each pending timeout advances from, not its handle. That a
  step leaves a new full-length timeout is stated on the class methods (`Render`, `Commit`,
  `TapNext`, `TapPrev`, `TimerFire`, `SelectThumbnail`), not on the step functions.
- The collection is fixed for the carousel's lifetime (`const webstories`). The source's
  `webstories` prop could change between renders; a new collection is not modelled.
- Carousel.WebstoriesCarousel.SelectThumbnail with a viewer already mounted cannot happen in
  the source: the dialog's backdrop covers the thumbnails, and a click outside the panel closes
  the viewer. The method still accepts it and returns the first render's read, which holds the
  old index like a forward switch does.
- `ContentSlider` and the thumbnail images: layout only. A thumbnail exists only for a story of
  the collection, so `SelectThumbnail` requires `idx < |webstories|`. The source has no
  out-of-range error path.
- Collections with an empty story or with two stories of the same id are excluded by
  `StoryData.WellFormed`. The viewer would read slide 0 of an empty story, and the thumbnails
  are keyed by id. Because ids are unique, React's object identity of the `webstory` prop is
  modelled by value equality of stories.
- The viewer's `open` prop is always true while the carousel mounts it. The viewer's own
  methods also accept `false` and a missing story.
- The optional callbacks `onNextStory?.()` and `onPrevStory?.()`: the carousel always passes
  both. `Viewer.NextRun` covers a viewer whose callback leaves it in place.
- JavaScript numbers are modelled as unbounded integers. Indices stay far below 2^53.
- `app/admin/posts/page.tsx`, `app/admin/page.tsx`, `app/busca/page.tsx`,
  `components/magazine.tsx`, `app/api/instagram/route.ts` and `app/api/agro/route.ts`: form
  glue, dashboards, search, PDF rasterisation and HTTP proxies over external services. None of
  them is part of the playback engine.
