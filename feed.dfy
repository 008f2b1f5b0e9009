/** The Shorts page (app/shorts/page.tsx): a vertical, snap-scrolling feed of
    playable videos, one tile per viewport height, with a single current index
    driven by scrolling, the arrow keys and two navigation buttons. */
module ShortsFeed {
  import opened Wrappers
  import opened Videos
  import Rounding
  import SeqFilter

  datatype Key = ArrowUp | ArrowDown | OtherKey(name: string)

  /** The feed's list: the fetched videos that are completed and carry a stream URL. */
  function PlayableVideos(fetched: seq<Video>): (r: seq<Video>)
    ensures |r| <= |fetched|
    ensures forall v :: v in r <==> v in fetched && IsPlayable(v)
  {
    SeqFilter.Filter(fetched, IsPlayable)
  }

  /** The feed keeps the fetched order: filtering distributes over concatenation. */
  lemma PlayableVideosKeepOrder(a: seq<Video>, b: seq<Video>)
    ensures PlayableVideos(a + b) == PlayableVideos(a) + PlayableVideos(b)
  {
    SeqFilter.FilterAppend(a, b, IsPlayable);
  }

  /** Nothing is dropped exactly when every fetched video is playable. */
  lemma PlayableVideosDropNothingIff(fetched: seq<Video>)
    ensures PlayableVideos(fetched) == fetched <==> forall i :: 0 <= i < |fetched| ==> IsPlayable(fetched[i])
  {
    SeqFilter.FilterKeepsAllIff(fetched, IsPlayable);
    if forall i :: 0 <= i < |fetched| ==> IsPlayable(fetched[i]) {
      SeqFilter.FilterAllPass(fetched, IsPlayable);
    }
  }

  /** The index a scroll event leaves behind: `Math.round(scrollTop / windowHeight)`
      when it differs from the current index and names a tile, else the current index.
      An out-of-range index is ignored, not clamped. */
  function ScrollTarget(current: nat, count: nat, scrollTop: nat, height: nat): (r: nat)
    requires height > 0
    ensures r != current <==> Rounding.RoundDiv(scrollTop, height) != current && Rounding.RoundDiv(scrollTop, height) < count
    ensures r != current ==> r == Rounding.RoundDiv(scrollTop, height)
  {
    var k := Rounding.RoundDiv(scrollTop, height);
    if k != current && k < count then k else current
  }

  /** Scrolling exactly onto tile k (k < N) makes k the current index. */
  lemma ScrollOntoTile(current: nat, count: nat, k: nat, height: nat)
    requires height > 0 && k < count
    ensures ScrollTarget(current, count, k * height, height) == k
  {
    Rounding.RoundDivExact(k, height);
  }

  /** Scrolling to or beyond the end of the last tile leaves the index unchanged. */
  lemma ScrollPastEndIgnored(current: nat, count: nat, scrollTop: nat, height: nat)
    requires height > 0 && scrollTop >= count * height
    ensures ScrollTarget(current, count, scrollTop, height) == current
  {
    Rounding.RoundDivAtLeast(scrollTop, height, count);
  }

  /** The optimistic update of scrollToVideo can be undone: while the smooth scroll
      is still in its first half tile, a scroll event sends the index back to 0. */
  lemma EarlyScrollEventRewinds(current: nat, count: nat, scrollTop: nat, height: nat)
    requires height > 0 && 2 * scrollTop < height && count > 0
    ensures ScrollTarget(current, count, scrollTop, height) == 0
  {
    Rounding.RoundDivBelowHalf(scrollTop, height);
  }

  /** The index after a key press: ArrowDown moves forward unless on the last tile,
      ArrowUp moves back unless on the first, any other key does nothing. */
  function KeyTarget(current: nat, count: nat, key: Key): (r: nat)
  {
    if key.ArrowDown? && current < count - 1 then current + 1
    else if key.ArrowUp? && current > 0 then current - 1
    else current
  }

  /** The arrow keys are no-ops at the boundaries and move by exactly one elsewhere. */
  lemma KeyMovesByOne(current: nat, count: nat, key: Key)
    requires current < count
    ensures key.ArrowDown? ==> KeyTarget(current, count, key) == if current == count - 1 then current else current + 1
    ensures key.ArrowUp? ==> KeyTarget(current, count, key) == if current == 0 then current else current - 1
    ensures key.OtherKey? ==> KeyTarget(current, count, key) == current
  {
  }

  /** The "previous" button is rendered. */
  predicate ShowPrevious(count: nat, current: nat) {
    count > 1 && current > 0
  }

  /** The "next" button is rendered. */
  predicate ShowNext(count: nat, current: nat) {
    count > 1 && current < count - 1
  }

  /** A button is shown exactly when the matching arrow key would move the index. */
  lemma NavButtonsMatchKeys(count: nat, current: nat)
    requires current < count
    ensures ShowPrevious(count, current) <==> KeyTarget(current, count, ArrowUp) != current
    ensures ShowNext(count, current) <==> KeyTarget(current, count, ArrowDown) != current
  {
  }

  /** The `isActive` prop of each tile, `index === currentIndex`. */
  function ActiveFlags(count: nat, current: nat): (r: seq<bool>)
    ensures |r| == count
    ensures forall i :: 0 <= i < count ==> (r[i] <==> i == current)
  {
    seq(count, i => i == current)
  }

  function CountTrue(s: seq<bool>): nat {
    if s == [] then 0 else CountTrue(s[..|s| - 1]) + (if s[|s| - 1] then 1 else 0)
  }

  /** With the index in range exactly one tile is active; out of range, none is. */
  lemma {:induction false} ExactlyOneActive(count: nat, current: nat)
    ensures CountTrue(ActiveFlags(count, current)) == if current < count then 1 else 0
  {
    if count > 0 {
      ExactlyOneActive(count - 1, current);
      assert ActiveFlags(count, current)[..count - 1] == ActiveFlags(count - 1, current);
    }
  }

  /** One input the feed reacts to. */
  datatype Event = Scrolled(scrollTop: nat, height: nat) | Pressed(key: Key)

  function Step(current: nat, count: nat, e: Event): nat {
    match e
    case Scrolled(top, h) => if h == 0 then current else ScrollTarget(current, count, top, h)
    case Pressed(k) => KeyTarget(current, count, k)
  }

  function Run(current: nat, count: nat, events: seq<Event>): nat
    decreases |events|
  {
    if events == [] then current else Run(Step(current, count, events[0]), count, events[1..])
  }

  /** From any index on a tile, any sequence of scrolls and key presses keeps
      the index on a tile, so exactly one tile stays active. */
  lemma {:induction false} RunStaysOnATile(current: nat, count: nat, events: seq<Event>)
    requires current < count
    ensures Run(current, count, events) < count
    ensures CountTrue(ActiveFlags(count, Run(current, count, events))) == 1
    decreases |events|
  {
    if events != [] {
      RunStaysOnATile(Step(current, count, events[0]), count, events[1..]);
    }
    ExactlyOneActive(count, Run(current, count, events));
  }

  /** The page's state: the list, the current index, the load flags and the
      scroll container's position. */
  class FeedController {
    var videos: seq<Video>
    var currentIndex: nat
    var loading: bool
    var error: string
    /** The scroll container's `scrollTop`, in pixels. */
    var scrollTop: nat

    ghost predicate Valid()
      reads this
    {
      && (|videos| > 0 ==> currentIndex < |videos|)
      && (|videos| == 0 ==> currentIndex == 0)
      && (loading ==> videos == [] && error == "")
      && (error != "" ==> videos == [])
    }

    /** The scroll container is rendered only after a successful load of a non-empty list. */
    predicate ContainerMounted()
      reads this
    {
      !loading && error == "" && |videos| > 0
    }

    /** The tiles' `isActive` flags. */
    function ActiveTiles(): (r: seq<bool>)
      reads this
      ensures |r| == |videos|
      ensures forall i :: 0 <= i < |videos| ==> (r[i] <==> i == currentIndex)
    {
      ActiveFlags(|videos|, currentIndex)
    }

    constructor ()
      ensures Valid()
      ensures videos == [] && currentIndex == 0 && loading && error == "" && scrollTop == 0
    {
      videos := [];
      currentIndex := 0;
      loading := true;
      error := "";
      scrollTop := 0;
    }

    /** `fetchVideos`: the response is the API's list, or None when the request failed. */
    method FetchVideos(response: Option<seq<Video>>)
      requires Valid() && loading
      modifies this`videos, this`error, this`loading
      ensures Valid() && !loading
      ensures response.Some? ==> videos == PlayableVideos(response.value) && error == ""
      ensures response.None? ==> videos == [] && error == "Failed to load videos"
    {
      if response.Some? {
        videos := PlayableVideos(response.value);
      } else {
        error := "Failed to load videos";
      }
      loading := false;
    }

    /** `handleScroll`: the container reports its new position. Without a rendered
        container the handler returns at once; a zero window height gives an index
        (`Infinity` or `NaN`) that is never below the list's length. */
    method OnScroll(newTop: nat, windowHeight: nat)
      requires Valid()
      modifies this`scrollTop, this`currentIndex
      ensures Valid()
      ensures !old(ContainerMounted()) ==> currentIndex == old(currentIndex) && scrollTop == old(scrollTop)
      ensures old(ContainerMounted()) ==>
        scrollTop == newTop && currentIndex == Step(old(currentIndex), |videos|, Scrolled(newTop, windowHeight))
      ensures |videos| > 0 ==> CountTrue(ActiveTiles()) == 1
    {
      if !ContainerMounted() {
        return;
      }
      scrollTop := newTop;
      if windowHeight > 0 {
        var newIndex := Rounding.RoundDiv(newTop, windowHeight);
        if newIndex != currentIndex && newIndex < |videos| {
          currentIndex := newIndex;
        }
      }
      ExactlyOneActive(|videos|, currentIndex);
    }

    /** `scrollToVideo`: request a smooth scroll to the tile's top and set the index at once.
        Every caller passes a tile's index, so the container is rendered and its guard passes. */
    method ScrollToVideo(index: nat, windowHeight: nat)
      requires Valid() && index < |videos|
      modifies this`scrollTop, this`currentIndex
      ensures Valid() && currentIndex == index && scrollTop == index * windowHeight
    {
      assert ContainerMounted();
      scrollTop := index * windowHeight;
      currentIndex := index;
    }

    /** `handleKeyDown`. */
    method KeyDown(key: Key, windowHeight: nat)
      requires Valid()
      modifies this`scrollTop, this`currentIndex
      ensures Valid()
      ensures currentIndex == KeyTarget(old(currentIndex), |videos|, key)
      ensures scrollTop == if currentIndex != old(currentIndex) then currentIndex * windowHeight else old(scrollTop)
    {
      if key.ArrowDown? && currentIndex < |videos| - 1 {
        ScrollToVideo(currentIndex + 1, windowHeight);
      } else if key.ArrowUp? && currentIndex > 0 {
        ScrollToVideo(currentIndex - 1, windowHeight);
      }
    }

    /** A click on the "previous" button, which exists only while it is shown. */
    method PressPrevious(windowHeight: nat)
      requires Valid() && ShowPrevious(|videos|, currentIndex)
      modifies this`scrollTop, this`currentIndex
      ensures Valid() && currentIndex == old(currentIndex) - 1
      ensures scrollTop == currentIndex * windowHeight
    {
      ScrollToVideo(currentIndex - 1, windowHeight);
    }

    /** A click on the "next" button, which exists only while it is shown. */
    method PressNext(windowHeight: nat)
      requires Valid() && ShowNext(|videos|, currentIndex)
      modifies this`scrollTop, this`currentIndex
      ensures Valid() && currentIndex == old(currentIndex) + 1
      ensures scrollTop == currentIndex * windowHeight
    {
      ScrollToVideo(currentIndex + 1, windowHeight);
    }
  }
}
