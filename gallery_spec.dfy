/**
 * The slideshow of main.js (class GalleryManager, main.js:3-181) as a pure
 * state machine. The document is abstracted to one record of class markers
 * per slide, the two `setTimeout` callbacks of a transition to the explicit
 * events EnterPhase and CleanupPhase, and the autoplay interval to a flag
 * saying whether it is armed plus the handle of the latest interval.
 */
module GallerySpec {
  import opened Cycling

  /** A horizontal swipe must travel more than this many pixels (main.js:120). */
  const SwipeThreshold: real := 50.0

  /** The `active` and `prev` class markers of one slide. */
  datatype SlideClasses = SlideClasses(active: bool, prev: bool)

  /** Which transition callback is pending: none, the 50 ms one that marks
      the new slide active, or the 600 ms one that clears the leaving
      slide's `prev` marker. Both remember the slide that was left. */
  datatype Phase = Idle | AwaitEnter(previous: nat) | AwaitCleanup(previous: nat)

  /** Everything a GalleryManager instance and its part of the page hold.
      `slideInterval` is the handle of the latest `setInterval` (0 stands
      for the initial `null`); handles are issued in increasing order, so a
      re-armed interval always has a fresh one. */
  datatype GalleryState = GalleryState(
    slides: seq<SlideClasses>,
    currentSlide: int,
    isTransitioning: bool,
    phase: Phase,
    isAutoPlaying: bool,
    intervalArmed: bool,
    slideInterval: nat,
    hasSlideshowView: bool,
    hasGridView: bool,
    slideshowShown: bool,
    gridShown: bool,
    touchStartX: real,
    touchEndX: real)

  /** The invariant of the slideshow: the index is in range, a transition is
      in flight exactly when a callback is pending, at most one slide is
      marked active (exactly the current one outside the enter gap), and the
      `prev` marker sits only on the slide being left. */
  predicate Inv(g: GalleryState)
  {
    && |g.slides| >= 1
    && 0 <= g.currentSlide < |g.slides|
    && (g.isTransitioning <==> !g.phase.Idle?)
    && (g.phase.Idle? ==>
          forall i :: 0 <= i < |g.slides| ==> g.slides[i] == SlideClasses(i == g.currentSlide, false))
    && (g.phase.AwaitEnter? ==>
          && g.phase.previous < |g.slides|
          && forall i :: 0 <= i < |g.slides| ==>
               !g.slides[i].active && (g.slides[i].prev ==> i == g.phase.previous))
    && (g.phase.AwaitCleanup? ==>
          && g.phase.previous < |g.slides|
          && forall i :: 0 <= i < |g.slides| ==>
               (g.slides[i].active <==> i == g.currentSlide) && (g.slides[i].prev ==> i == g.phase.previous))
  }

  /** The page as loaded: the first slide marked active, autoplay on and its
      interval armed with the first handle (main.js:4-21, 82-90). */
  function Initial(slideCount: nat, hasSlideshowView: bool, hasGridView: bool,
                   slideshowShown: bool, gridShown: bool): (g: GalleryState)
    requires slideCount >= 1
    ensures Inv(g)
    ensures |g.slides| == slideCount && g.currentSlide == 0
    ensures !g.isTransitioning && g.isAutoPlaying && g.intervalArmed
    ensures g.hasSlideshowView == hasSlideshowView && g.hasGridView == hasGridView
    ensures g.slideshowShown == slideshowShown && g.gridShown == gridShown
    ensures g.touchStartX == 0.0 && g.touchEndX == 0.0
  {
    GalleryState(seq(slideCount, i => SlideClasses(i == 0, false)), 0, false, Idle,
            true, true, 1, hasSlideshowView, hasGridView, slideshowShown, gridShown, 0.0, 0.0)
  }

  /** `startAutoPlay` (main.js:82-90): clears the live interval, if any, and
      arms a new one. */
  function StartAutoPlay(g: GalleryState): (r: GalleryState)
    requires Inv(g)
    ensures Inv(r)
    ensures r.intervalArmed && r.slideInterval > g.slideInterval
    ensures r == g.(intervalArmed := r.intervalArmed, slideInterval := r.slideInterval)
  {
    g.(intervalArmed := true, slideInterval := g.slideInterval + 1)
  }

  /** `restartAutoPlay` (main.js:92-96): re-arms the interval only while
      autoplay is on. */
  function RestartAutoPlay(g: GalleryState): (r: GalleryState)
    requires Inv(g)
    ensures Inv(r)
    ensures g.isAutoPlaying ==> r.intervalArmed && r.slideInterval > g.slideInterval
    ensures !g.isAutoPlaying ==> r == g
    ensures r == g.(intervalArmed := r.intervalArmed, slideInterval := r.slideInterval)
  {
    if g.isAutoPlaying then StartAutoPlay(g) else g
  }

  /** `pauseAutoPlay` (main.js:98-100): turns autoplay off but leaves the
      interval armed; its ticks then do nothing. */
  function PauseAutoPlay(g: GalleryState): (r: GalleryState)
    requires Inv(g)
    ensures Inv(r)
    ensures !r.isAutoPlaying
    ensures r.intervalArmed == g.intervalArmed && r.slideInterval == g.slideInterval
    ensures r == g.(isAutoPlaying := false)
  {
    g.(isAutoPlaying := false)
  }

  /** `resumeAutoPlay` (main.js:102-105): turns autoplay on and re-arms the
      interval with a fresh handle. */
  function ResumeAutoPlay(g: GalleryState): (r: GalleryState)
    requires Inv(g)
    ensures Inv(r)
    ensures r.isAutoPlaying && r.intervalArmed && r.slideInterval > g.slideInterval
    ensures r.slides == g.slides && r.currentSlide == g.currentSlide && r.phase == g.phase
    ensures r == g.(isAutoPlaying := true, intervalArmed := true, slideInterval := r.slideInterval)
  {
    StartAutoPlay(g.(isAutoPlaying := true))
  }

  /** `changeSlide(direction)` (main.js:56-80). While a transition is in
      flight nothing changes. Otherwise the index moves one step around the
      cycle, the slide being left loses `active` and, when moving forward,
      gains `prev`, the enter callback becomes pending and the interval is
      re-armed when autoplay is on. */
  function ChangeSlide(g: GalleryState, direction: int): (r: GalleryState)
    requires Inv(g)
    requires direction == 1 || direction == -1
    ensures Inv(r) && |r.slides| == |g.slides|
    ensures g.isTransitioning ==> r == g
    ensures !g.isTransitioning ==>
      && r.currentSlide == Cycle(g.currentSlide, direction, |g.slides|)
      && r.isTransitioning && r.phase == AwaitEnter(g.currentSlide)
      && !r.slides[g.currentSlide].active
      && (r.slides[g.currentSlide].prev <==> direction > 0)
      && (forall i :: 0 <= i < |g.slides| && i != g.currentSlide ==> r.slides[i] == g.slides[i])
    ensures r.isAutoPlaying == g.isAutoPlaying
    ensures !g.isTransitioning && g.isAutoPlaying ==> r.intervalArmed && r.slideInterval > g.slideInterval
    ensures g.isTransitioning || !g.isAutoPlaying ==>
      r.intervalArmed == g.intervalArmed && r.slideInterval == g.slideInterval
    ensures r.slideshowShown == g.slideshowShown && r.gridShown == g.gridShown
    ensures r.hasSlideshowView == g.hasSlideshowView && r.hasGridView == g.hasGridView
    ensures r.touchStartX == g.touchStartX && r.touchEndX == g.touchEndX
  {
    if g.isTransitioning then g else RestartAutoPlay(Depart(g, direction))
  }

  /** The first half of a started transition (main.js:59-67): the index
      moves, and the slide being left loses `active` and, when moving
      forward, gains `prev`. */
  function Depart(g: GalleryState, direction: int): (r: GalleryState)
    requires Inv(g) && !g.isTransitioning
    requires direction == 1 || direction == -1
    ensures Inv(r) && |r.slides| == |g.slides| && r.phase == AwaitEnter(g.currentSlide)
  {
    var previous := g.currentSlide;
    var next := JsRem(previous + direction + |g.slides|, |g.slides|);
    var left := g.slides[previous].(active := false);
    var left' := if direction > 0 then left.(prev := true) else left;
    g.(isTransitioning := true, currentSlide := next,
       slides := g.slides[previous := left'], phase := AwaitEnter(previous))
  }

  /** The 50 ms callback (main.js:69-70): the new current slide gains
      `active`. */
  function EnterPhase(g: GalleryState): (r: GalleryState)
    requires Inv(g) && g.phase.AwaitEnter?
    ensures Inv(r) && |r.slides| == |g.slides|
    ensures r.slides[r.currentSlide].active && r.isTransitioning
    ensures r.phase == AwaitCleanup(g.phase.previous)
    ensures r.slides[g.currentSlide] == g.slides[g.currentSlide].(active := true)
    ensures forall i :: 0 <= i < |g.slides| && i != g.currentSlide ==> r.slides[i] == g.slides[i]
    ensures r == g.(slides := r.slides, phase := r.phase)
  {
    var c := g.currentSlide;
    g.(slides := g.slides[c := g.slides[c].(active := true)], phase := AwaitCleanup(g.phase.previous))
  }

  /** The 600 ms callback (main.js:73-76): the slide that was left loses
      `prev` and the transition is over. */
  function CleanupPhase(g: GalleryState): (r: GalleryState)
    requires Inv(g) && g.phase.AwaitCleanup?
    ensures Inv(r) && |r.slides| == |g.slides|
    ensures !r.isTransitioning && r.phase.Idle?
    ensures forall i :: 0 <= i < |r.slides| ==> !r.slides[i].prev
    ensures r == g.(slides := r.slides, phase := Idle, isTransitioning := false)
  {
    var p := g.phase.previous;
    g.(slides := g.slides[p := g.slides[p].(prev := false)], phase := Idle, isTransitioning := false)
  }

  /** A tick of the armed interval (main.js:85-89): a forward step only
      while autoplay is on. */
  function AutoPlayTick(g: GalleryState): (r: GalleryState)
    requires Inv(g) && g.intervalArmed
    ensures Inv(r)
    ensures !g.isAutoPlaying ==> r == g
    ensures g.isAutoPlaying && !g.isTransitioning ==>
      r.currentSlide == Cycle(g.currentSlide, 1, |g.slides|) && r.isTransitioning
    ensures g.isAutoPlaying ==> r == ChangeSlide(g, 1)
  {
    if g.isAutoPlaying then ChangeSlide(g, 1) else g
  }

  /** Classification of a finished swipe (main.js:120-129): 0 for a travel
      of at most the threshold, otherwise +1 for a swipe to the left (the
      finger ends left of where it started) and -1 for one to the right. */
  function SwipeDirection(startX: real, endX: real): (d: int)
    ensures d == 0 || d == 1 || d == -1
    ensures d == 0 <==> -SwipeThreshold <= startX - endX <= SwipeThreshold
    ensures d == 1 <==> startX - endX > SwipeThreshold
    ensures d == -1 <==> endX - startX > SwipeThreshold
  {
    var diff := startX - endX;
    if (if diff < 0.0 then -diff else diff) > SwipeThreshold then
      (if diff > 0.0 then 1 else -1)
    else 0
  }

  /** `handleTouchStart` (main.js:108-110). */
  function HandleTouchStart(g: GalleryState, x: real): (r: GalleryState)
    requires Inv(g)
    ensures Inv(r) && r.touchStartX == x
    ensures r == g.(touchStartX := x)
  {
    g.(touchStartX := x)
  }

  /** `handleTouchEnd` (main.js:118-130): records where the touch ended and
      acts as `changeSlide` in the swipe's direction when it travelled far
      enough. */
  function HandleTouchEnd(g: GalleryState, x: real): (r: GalleryState)
    requires Inv(g)
    ensures Inv(r) && r.touchEndX == x
    ensures SwipeDirection(g.touchStartX, x) == 0 ==> r == g.(touchEndX := x)
    ensures SwipeDirection(g.touchStartX, x) != 0 ==>
      r == ChangeSlide(g.(touchEndX := x), SwipeDirection(g.touchStartX, x))
  {
    var g' := g.(touchEndX := x);
    assert Inv(g') by {
      assert g'.slides == g.slides && g'.phase == g.phase && g'.currentSlide == g.currentSlide;
    }
    var d := SwipeDirection(g'.touchStartX, g'.touchEndX);
    if d == 0 then g' else ChangeSlide(g', d)
  }

  /** The arrow-key mapping (main.js:135-144): ArrowLeft is a step back,
      ArrowRight a step forward, every other key nothing. */
  function KeyDirection(key: string): (d: int)
    ensures d == 0 || d == 1 || d == -1
    ensures d == -1 <==> key == "ArrowLeft"
    ensures d == 1 <==> key == "ArrowRight"
  {
    match key
    case "ArrowLeft" => -1
    case "ArrowRight" => 1
    case _ => 0
  }

  /** `handleKeyPress` (main.js:133-146): arrows act only while the
      slideshow view is shown. Without a slideshow view in the page the
      handler fails on `null.classList` before changing anything. */
  function HandleKeyPress(g: GalleryState, key: string): (r: GalleryState)
    requires Inv(g)
    ensures Inv(r)
    ensures !(g.hasSlideshowView && g.slideshowShown) || KeyDirection(key) == 0 ==> r == g
    ensures g.hasSlideshowView && g.slideshowShown && KeyDirection(key) != 0 ==>
      r == ChangeSlide(g, KeyDirection(key))
  {
    if !g.hasSlideshowView || !g.slideshowShown then g
    else
      var d := KeyDirection(key);
      if d == 0 then g else ChangeSlide(g, d)
  }

  /** `showSlideshow` (main.js:149-163): when both views exist, shows the
      slideshow, hides the grid and arms the interval, whether or not
      autoplay is on. */
  function ShowSlideshow(g: GalleryState): (r: GalleryState)
    requires Inv(g)
    ensures Inv(r)
    ensures !(g.hasSlideshowView && g.hasGridView) ==> r == g
    ensures g.hasSlideshowView && g.hasGridView ==>
      r.slideshowShown && !r.gridShown && r.intervalArmed && r.slideInterval > g.slideInterval
    ensures r.isAutoPlaying == g.isAutoPlaying && r.slides == g.slides && r.currentSlide == g.currentSlide
    ensures r == g.(slideshowShown := r.slideshowShown, gridShown := r.gridShown,
                    intervalArmed := r.intervalArmed, slideInterval := r.slideInterval)
  {
    if g.hasSlideshowView && g.hasGridView then
      StartAutoPlay(g.(slideshowShown := true, gridShown := false))
    else g
  }

  /** `showGrid` (main.js:165-180): when both views exist, shows the grid,
      hides the slideshow and clears the interval. The handle field keeps
      its stale value, as `clearInterval` leaves it in place. */
  function ShowGrid(g: GalleryState): (r: GalleryState)
    requires Inv(g)
    ensures Inv(r)
    ensures !(g.hasSlideshowView && g.hasGridView) ==> r == g
    ensures g.hasSlideshowView && g.hasGridView ==>
      !r.slideshowShown && r.gridShown && !r.intervalArmed && r.slideInterval == g.slideInterval
    ensures r.isAutoPlaying == g.isAutoPlaying && r.slides == g.slides && r.currentSlide == g.currentSlide
    ensures r == g.(slideshowShown := r.slideshowShown, gridShown := r.gridShown, intervalArmed := r.intervalArmed)
  {
    if g.hasSlideshowView && g.hasGridView then
      g.(slideshowShown := false, gridShown := true, intervalArmed := false)
    else g
  }

  /** The events the page delivers to a GalleryManager (main.js:23-54 wires
      them), and the two pending transition callbacks. */
  datatype Event =
    | PrevClick | NextClick
    | IntervalTick | EnterTimer | CleanupTimer
    | TouchStart(x: real) | TouchEnd(x: real)
    | KeyDown(key: string)
    | MouseEnter | MouseLeave
    | SlideshowToggle | GridToggle

  /** One event. A timer event with nothing pending (a cleared interval, a
      callback that is not scheduled) is never delivered, so it changes
      nothing. */
  function Step(g: GalleryState, e: Event): (r: GalleryState)
    requires Inv(g)
    ensures Inv(r) && |r.slides| == |g.slides|
    ensures r.hasSlideshowView == g.hasSlideshowView && r.hasGridView == g.hasGridView
  {
    match e
    case PrevClick => ChangeSlide(g, -1)
    case NextClick => ChangeSlide(g, 1)
    case IntervalTick => if g.intervalArmed then AutoPlayTick(g) else g
    case EnterTimer => if g.phase.AwaitEnter? then EnterPhase(g) else g
    case CleanupTimer => if g.phase.AwaitCleanup? then CleanupPhase(g) else g
    case TouchStart(x) => HandleTouchStart(g, x)
    case TouchEnd(x) => HandleTouchEnd(g, x)
    case KeyDown(key) => HandleKeyPress(g, key)
    case MouseEnter => PauseAutoPlay(g)
    case MouseLeave => ResumeAutoPlay(g)
    case SlideshowToggle => ShowSlideshow(g)
    case GridToggle => ShowGrid(g)
  }

  /** A sequence of events, in order: whatever the page delivers, the
      slideshow invariant holds throughout, in particular the index stays
      in `[0, N)`. */
  function Run(g: GalleryState, events: seq<Event>): (r: GalleryState)
    requires Inv(g)
    ensures Inv(r) && |r.slides| == |g.slides|
    ensures 0 <= r.currentSlide < |g.slides|
    decreases |events|
  {
    if events == [] then g else Run(Step(g, events[0]), events[1..])
  }

  /** The events that can move the slideshow: buttons, swipes, keys and
      interval ticks. */
  predicate IsNavigation(e: Event)
  {
    e.PrevClick? || e.NextClick? || e.IntervalTick? || e.TouchEnd? || e.KeyDown?
  }

  /** During a transition every navigation event is ignored: index, slide
      markers, autoplay flag and interval stay as they were (main.js:57). */
  lemma NavigationBlockedWhileTransitioning(g: GalleryState, e: Event)
    requires Inv(g) && g.isTransitioning && IsNavigation(e)
    ensures Step(g, e).currentSlide == g.currentSlide
    ensures Step(g, e).slides == g.slides
    ensures Step(g, e).phase == g.phase
    ensures Step(g, e).isAutoPlaying == g.isAutoPlaying
    ensures Step(g, e).intervalArmed == g.intervalArmed
    ensures Step(g, e).slideInterval == g.slideInterval
  {
  }

  /** A whole transition, change then both callbacks, ends idle on the next
      slide of the cycle with that slide the only one marked and no `prev`
      marker left (main.js:59-77). */
  lemma HandoffCompletes(g: GalleryState, direction: int)
    requires Inv(g) && !g.isTransitioning
    requires direction == 1 || direction == -1
    ensures var r := CleanupPhase(EnterPhase(ChangeSlide(g, direction)));
      && !r.isTransitioning
      && r.currentSlide == Cycle(g.currentSlide, direction, |g.slides|)
      && |r.slides| == |g.slides|
      && forall i :: 0 <= i < |r.slides| ==> r.slides[i] == SlideClasses(i == r.currentSlide, false)
  {
  }

  /** A swipe of more than the threshold, outside a transition, moves the
      index by exactly one step in the swipe's direction; a shorter one
      leaves it alone (main.js:123-129). */
  lemma SwipeMovesOneStep(g: GalleryState, x: real)
    requires Inv(g) && !g.isTransitioning
    ensures var r := HandleTouchEnd(g, x);
      && (g.touchStartX - x > SwipeThreshold ==> r.currentSlide == Cycle(g.currentSlide, 1, |g.slides|))
      && (x - g.touchStartX > SwipeThreshold ==> r.currentSlide == Cycle(g.currentSlide, -1, |g.slides|))
      && (-SwipeThreshold <= g.touchStartX - x <= SwipeThreshold ==>
            r.currentSlide == g.currentSlide && r.slides == g.slides)
  {
  }

  /** `k` undisturbed autoplay rounds: a tick and the two callbacks it
      schedules. */
  function AutoplayRounds(k: nat): (events: seq<Event>)
    ensures |events| == 3 * k
  {
    if k == 0 then [] else [IntervalTick, EnterTimer, CleanupTimer] + AutoplayRounds(k - 1)
  }

  /** Undisturbed, autoplay moves forward one slide per round and keeps
      itself armed. */
  lemma {:induction false} AutoplayAdvances(g: GalleryState, k: nat)
    requires Inv(g) && !g.isTransitioning && g.isAutoPlaying && g.intervalArmed
    ensures var r := Run(g, AutoplayRounds(k));
      && r.currentSlide == Advance(g.currentSlide, k, |g.slides|)
      && !r.isTransitioning && r.isAutoPlaying && r.intervalArmed
    decreases k
  {
    if k > 0 {
      var events := AutoplayRounds(k);
      var g1 := Step(g, IntervalTick);
      var g2 := Step(g1, EnterTimer);
      var g3 := Step(g2, CleanupTimer);
      assert events[0] == IntervalTick && events[1..][0] == EnterTimer && events[1..][1..][0] == CleanupTimer;
      assert events[1..][1..][1..] == AutoplayRounds(k - 1);
      assert Run(g, events) == Run(g1, events[1..]);
      assert Run(g1, events[1..]) == Run(g2, events[1..][1..]);
      assert Run(g2, events[1..][1..]) == Run(g3, AutoplayRounds(k - 1));
      AutoplayAdvances(g3, k - 1);
    }
  }

  /** Autoplay shows every slide: from any slide, any other is reached in
      fewer than N undisturbed rounds, and N rounds come back to the start. */
  lemma AutoplayShowsEverySlide(g: GalleryState, target: int)
    requires Inv(g) && !g.isTransitioning && g.isAutoPlaying && g.intervalArmed
    requires 0 <= target < |g.slides|
    ensures StepsTo(g.currentSlide, target, |g.slides|) < |g.slides|
    ensures Run(g, AutoplayRounds(StepsTo(g.currentSlide, target, |g.slides|))).currentSlide == target
    ensures Run(g, AutoplayRounds(|g.slides|)).currentSlide == g.currentSlide
  {
    EveryIndexReached(g.currentSlide, target, |g.slides|);
    AutoplayAdvances(g, StepsTo(g.currentSlide, target, |g.slides|));
    FullTurnReturns(g.currentSlide, |g.slides|);
    AutoplayAdvances(g, |g.slides|);
  }
}
