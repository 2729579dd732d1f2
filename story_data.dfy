/**
 The content the playback engine plays: a web story is a titled, ordered list of slides, and
 the carousel is given an ordered collection of stories. All of it is read-only to the engine.
 */
module StoryData {
  import opened Wrappers

  /** One slide: its image and an optional caption. */
  datatype Slide = Slide(imageUrl: string, text: Option<string>)

  /** One story: its identifier, its title and its slides, in playing order. */
  datatype Story = Story(id: string, title: string, slides: seq<Slide>)

  /**
   The collection the carousel is given: every story has at least one slide (the viewer reads the
   slide at its index and the thumbnail shows the first), and ids are unique (they key the
   thumbnails), so that two positions hold equal story values only when they are the same
   position and value equality can stand for the identity of the `webstory` object.
   */
  predicate WellFormed(stories: seq<Story>)
  {
    (forall k :: 0 <= k < |stories| ==> |stories[k].slides| > 0) &&
    (forall i, j :: 0 <= i < j < |stories| ==> stories[i].id != stories[j].id)
  }

  /** In a well-formed collection two positions hold the same story value exactly when they are equal. */
  lemma SameStoryIffSamePosition(stories: seq<Story>, i: nat, j: nat)
    requires WellFormed(stories) && i < |stories| && j < |stories|
    ensures stories[i] == stories[j] <==> i == j
  {
    if i < j {
      assert stories[i].id != stories[j].id;
    } else if j < i {
      assert stories[j].id != stories[i].id;
    }
  }
}
