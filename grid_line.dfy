/**
 * The section-progress ("grid line") animator of the portfolio page.
 *
 * The page holds an ordered list of full-height sections.  A vertical indicator line grows
 * down the page: when the viewport bottom has gone half a viewport past the top of a section
 * that lies beyond the current cursor, that section is activated and the line is extended to
 * the bottom of it.  Timers and animation frames are events of their own (`Event`), so every
 * interleaving the browser's event loop can produce is a sequence of `Step`s.
 *
 * The state is given twice: as the value `State` with the pure transition `Step`, about which
 * the lemmas speak, and as the class `Animator`, whose fields the methods update in place the
 * way the script does and whose methods are proved to perform exactly `Step`.
 */
module GridLine {
  import opened Optional

  /** What the page offers at start-up: is there a grid line, how many sections, and are the two reveal targets present. */
  datatype Config = Config(hasGridLine: bool, sectionCount: nat, hasUiGrid: bool, hasIframe: bool)

  /**
   * The animator's state.
   * - `cursor`: index of the last activated section, -1 before the first;
   * - `animating`: the in-flight flag that blocks activations;
   * - `height`: the indicator's rendered height in pixels (`parseFloat(style.height) || 0`);
   * - `frame`: the height an already requested animation frame will write;
   * - `releasePending`: the 1400 ms timer that clears `animating` is scheduled;
   * - `initialPending`: the 100 ms start-up timer that activates section 0 is scheduled;
   * - `ticking`: the scroll throttle's latch, a scan frame is requested;
   * - `uiGridVisible`, `iframeVisible`: the two reveals fired when section 1 is entered;
   * - `iframeTimers`: the number of 800 ms iframe-reveal timers still to fire.
   */
  datatype State = State(
    cursor: int,
    animating: bool,
    height: nat,
    frame: Option<nat>,
    releasePending: bool,
    initialPending: bool,
    ticking: bool,
    uiGridVisible: bool,
    iframeTimers: nat,
    iframeVisible: bool)

  /**
   * How one activation ends: blocked by the guard, extending the line to `target`, leaving the
   * line alone because `target` does not exceed its height, or failing because the section
   * index is beyond the section list (the script reads `offsetHeight` of `undefined`).
   */
  datatype Outcome = Skipped | Extended(target: nat) | NotExtended(target: nat) | Failed

  /** The callbacks the browser may run, each carrying the layout it reads. */
  datatype Event =
    | InitialTimer(heights: seq<nat>)
    | Scroll
    | Tick(scrollY: int, viewport: nat, tops: seq<int>, heights: seq<nat>)
    | Frame
    | ReleaseTimer
    | IframeTimer

  /** Sum of a sequence of section heights. */
  function Sum(s: seq<nat>): nat {
    if s == [] then 0 else Sum(s[..|s| - 1]) + s[|s| - 1]
  }

  /** A longer prefix of the sections never reaches less far down the page. */
  lemma {:induction false} SumPrefixMonotone(s: seq<nat>, i: nat, j: nat)
    requires i <= j <= |s|
    ensures Sum(s[..i]) <= Sum(s[..j])
  {
    if i < j {
      SumPrefixMonotone(s, i, j - 1);
      assert s[..j][..j - 1] == s[..j - 1];
    }
  }

  /**
   * With the heights unchanged, activating a later section aims at least as far down the page
   * as activating an earlier one, so moving forward never asks to shrink the line.
   */
  lemma LaterTargetReachesFurther(c: Config, s: State, i: nat, j: nat, heights: seq<nat>)
    requires |heights| == c.sectionCount && i <= j
    requires AnimateGridLine(c, s, j, heights).1.Extended? || AnimateGridLine(c, s, j, heights).1.NotExtended?
    ensures i < |heights| && Sum(heights[..i + 1]) <= AnimateGridLine(c, s, j, heights).1.target
  {
    SumPrefixMonotone(heights, i + 1, j + 1);
  }

  /** The sum of the heights of sections `0..i` is the sum through `i - 1` plus the height of `i`. */
  lemma SumThrough(s: seq<nat>, i: nat)
    requires i < |s|
    ensures Sum(s[..i + 1]) == Sum(s[..i]) + s[i]
  {
    assert s[..i + 1][..i] == s[..i];
  }

  /**
   * The viewport bottom `scrollY + viewport` has reached `top + viewport / 2`, the section's
   * threshold, written without the fraction.
   */
  predicate Passed(scrollY: int, viewport: nat, top: int) {
    2 * (scrollY + viewport) >= 2 * top + viewport
  }

  /** The state right after start-up: nothing is pending but the start-up timer, armed when the grid line exists. */
  function Init(c: Config): (s: State)
    ensures s.cursor == -1 && !s.animating && s.height == 0 && s.frame == None
    ensures !s.releasePending && !s.ticking && s.iframeTimers == 0 && !s.uiGridVisible && !s.iframeVisible
    ensures s.initialPending <==> c.hasGridLine
  {
    State(-1, false, 0, None, false, c.hasGridLine, false, false, 0, false)
  }

  /**
   * The invariant every reachable state keeps: a scheduled release timer means the flag is
   * set, a pending frame writes a height beyond the current one, the reveals only concern
   * elements that exist, and a page without a grid line stays in its initial state.
   */
  predicate Consistent(c: Config, s: State) {
    && s.cursor >= -1
    && (s.releasePending ==> s.animating)
    && (s.frame.Some? ==> s.releasePending && s.height < s.frame.value)
    && (s.uiGridVisible ==> c.hasUiGrid)
    && (s.iframeTimers > 0 || s.iframeVisible ==> c.hasIframe)
    && (!c.hasGridLine ==> s == Init(c))
  }

  /**
   * `animateGridLine(i)`: blocked while an animation is in flight or when `i` is already the
   * cursor; otherwise the cursor moves to `i` and the target is the height of sections `0..i`.
   * Only a target beyond the current height is scheduled for the next frame, keeps the flag
   * set until the release timer and, for section 1, fires the two reveal hooks.
   */
  function AnimateGridLine(c: Config, s: State, i: nat, heights: seq<nat>): (r: (State, Outcome))
    requires |heights| == c.sectionCount
    ensures r.1 == Skipped <==> s.animating || i == s.cursor
    ensures r.1 == Skipped ==> r.0 == s
    ensures r.1 != Skipped ==> r.0.cursor == i && (r.0.animating <==> !r.1.NotExtended?)
    ensures r.1 == Failed <==> !s.animating && i != s.cursor && i >= |heights|
    ensures r.1.Extended? || r.1.NotExtended? ==> i < |heights| && r.1.target == Sum(heights[..i + 1])
    ensures r.1.Extended? <==> r.1 != Skipped && i < |heights| && Sum(heights[..i + 1]) > s.height
    ensures r.0.frame == if r.1.Extended? then Some(r.1.target) else s.frame
    ensures r.0.releasePending == (s.releasePending || r.1.Extended?)
    ensures r.0.uiGridVisible == (s.uiGridVisible || (i == 1 && r.1.Extended? && c.hasUiGrid))
    ensures r.0.iframeTimers == s.iframeTimers + if i == 1 && r.1.Extended? && c.hasIframe then 1 else 0
    ensures r.0.height == s.height && r.0.initialPending == s.initialPending
    ensures r.0.ticking == s.ticking && r.0.iframeVisible == s.iframeVisible
  {
    if s.animating || i == s.cursor then (s, Skipped)
    else if i >= |heights| then (s.(animating := true, cursor := i), Failed)
    else
      var target := Sum(heights[..i + 1]);
      if target > s.height then
        var hooks := i == 1;
        (s.(animating := true, cursor := i, frame := Some(target), releasePending := true,
            uiGridVisible := s.uiGridVisible || (hooks && c.hasUiGrid),
            iframeTimers := s.iframeTimers + if hooks && c.hasIframe then 1 else 0),
         Extended(target))
      else
        (s.(cursor := i, animating := false), NotExtended(target))
  }

  /**
   * The scan of `updateGridLine` from index `from` on: the first index beyond `cursor` whose
   * threshold has been passed, if there is one.
   */
  function FirstPassed(scrollY: int, viewport: nat, tops: seq<int>, cursor: int, from: nat): (r: Option<nat>)
    decreases |tops| - from
    ensures r.Some? ==> from <= r.value < |tops| && cursor < r.value && Passed(scrollY, viewport, tops[r.value])
    ensures r.Some? ==> forall j :: from <= j < r.value && cursor < j ==> !Passed(scrollY, viewport, tops[j])
    ensures r.None? ==> forall j :: from <= j < |tops| && cursor < j ==> !Passed(scrollY, viewport, tops[j])
  {
    if from >= |tops| then None
    else if Passed(scrollY, viewport, tops[from]) && from > cursor then Some(from)
    else FirstPassed(scrollY, viewport, tops, cursor, from + 1)
  }

  /**
   * `updateGridLine`: activates only the lowest section beyond the cursor that has been
   * passed, and nothing at all when there is none.  The cursor never moves back, and when it
   * moves it moves forward to the activated section.
   */
  function UpdateGridLine(c: Config, s: State, scrollY: int, viewport: nat, tops: seq<int>, heights: seq<nat>)
    : (r: (State, Option<nat>))
    requires |tops| == c.sectionCount && |heights| == c.sectionCount
    ensures r.1.Some? ==> s.cursor < r.1.value < |tops| && Passed(scrollY, viewport, tops[r.1.value])
    ensures r.1.Some? ==> forall j :: 0 <= j < r.1.value && s.cursor < j ==> !Passed(scrollY, viewport, tops[j])
    ensures r.1.Some? ==> r.0 == AnimateGridLine(c, s, r.1.value, heights).0
    ensures r.1.None? ==> r.0 == s && forall j :: 0 <= j < |tops| && s.cursor < j ==> !Passed(scrollY, viewport, tops[j])
    ensures r.0.cursor >= s.cursor
    ensures r.0.cursor != s.cursor ==> r.1.Some? && r.0.cursor == r.1.value && !s.animating
    ensures r.1.Some? && !s.animating ==> r.0.cursor == r.1.value
  {
    match FirstPassed(scrollY, viewport, tops, s.cursor, 0)
    case None => (s, None)
    case Some(i) => (AnimateGridLine(c, s, i, heights).0, Some(i))
  }

  /** The callback for `e` exists: its timer or frame was scheduled, and the layout it reads has one entry per section. */
  predicate Enabled(c: Config, s: State, e: Event) {
    match e
    case InitialTimer(heights) => s.initialPending && |heights| == c.sectionCount
    case Scroll => true
    case Tick(_, _, tops, heights) => s.ticking && |tops| == c.sectionCount && |heights| == c.sectionCount
    case Frame => s.frame.Some?
    // The frame requested together with the 1400 ms timer has been painted before it fires.
    case ReleaseTimer => s.releasePending && s.frame.None?
    case IframeTimer => s.iframeTimers > 0
  }

  /** One callback of the event loop. */
  function Step(c: Config, s: State, e: Event): State
    requires Enabled(c, s, e)
  {
    match e
    case InitialTimer(heights) => AnimateGridLine(c, s.(initialPending := false), 0, heights).0
    case Scroll => if c.hasGridLine && !s.ticking then s.(ticking := true) else s
    case Tick(scrollY, viewport, tops, heights) =>
      UpdateGridLine(c, s, scrollY, viewport, tops, heights).0.(ticking := false)
    case Frame => s.(height := s.frame.value, frame := None)
    case ReleaseTimer => s.(animating := false, releasePending := false)
    case IframeTimer => s.(iframeTimers := s.iframeTimers - 1, iframeVisible := true)
  }

  /** Runs a sequence of callbacks; `None` when one of them was never scheduled. */
  function Run(c: Config, s: State, es: seq<Event>): Option<State>
    decreases |es|
  {
    if es == [] then Some(s)
    else if Enabled(c, s, es[0]) then Run(c, Step(c, s, es[0]), es[1..])
    else None
  }

  /** Every callback keeps the invariant, and none lowers the indicator. */
  lemma StepKeepsConsistent(c: Config, s: State, e: Event)
    requires Consistent(c, s) && Enabled(c, s, e)
    ensures Consistent(c, Step(c, s, e))
    ensures Step(c, s, e).height >= s.height
  {
  }

  /**
   * Whatever the interleaving of scroll events, frames and timers, the invariant holds
   * throughout and the indicator's height never decreases.
   */
  lemma {:induction false} RunKeepsConsistent(c: Config, s: State, es: seq<Event>)
    requires Consistent(c, s) && Run(c, s, es).Some?
    ensures Consistent(c, Run(c, s, es).value)
    ensures Run(c, s, es).value.height >= s.height
    decreases |es|
  {
    if es != [] {
      StepKeepsConsistent(c, s, es[0]);
      RunKeepsConsistent(c, Step(c, s, es[0]), es[1..]);
    }
  }

  /** No callback other than the start-up timer moves the cursor back. */
  lemma {:induction false} OnlyStartupLowersCursor(c: Config, s: State, es: seq<Event>)
    requires forall k :: 0 <= k < |es| ==> !es[k].InitialTimer?
    requires Run(c, s, es).Some?
    ensures Run(c, s, es).value.cursor >= s.cursor
    decreases |es|
  {
    if es != [] {
      OnlyStartupLowersCursor(c, Step(c, s, es[0]), es[1..]);
    }
  }

  /** Running two sequences of callbacks one after the other is running their concatenation. */
  lemma {:induction false} RunAppend(c: Config, s: State, a: seq<Event>, b: seq<Event>)
    requires Run(c, s, a).Some?
    ensures Run(c, s, a + b) == Run(c, Run(c, s, a).value, b)
    decreases |a|
  {
    if a != [] {
      assert (a + b)[0] == a[0] && (a + b)[1..] == a[1..] + b;
      RunAppend(c, Step(c, s, a[0]), a[1..], b);
    } else {
      assert a + b == b;
    }
  }

  /**
   * A scroll event followed by its scan frame, when the scan finds section `i` and the
   * sections through `i` are no taller than the indicator: the cursor moves to `i` and the
   * flag ends up clear, ready for the next activation.
   */
  lemma ScrollThenQuietScan(c: Config, s: State, e: Event, i: nat)
    requires e.Tick? && c.hasGridLine && !s.ticking && !s.animating
    requires |e.tops| == c.sectionCount && |e.heights| == c.sectionCount
    requires FirstPassed(e.scrollY, e.viewport, e.tops, s.cursor, 0) == Some(i)
    requires Sum(e.heights[..i + 1]) <= s.height
    ensures Run(c, s, [Scroll, e]) == Some(s.(cursor := i))
  {
    var s1 := Step(c, s, Scroll);
    assert s1 == s.(ticking := true);
    var a := AnimateGridLine(c, s1, i, e.heights);
    assert a.1 == NotExtended(Sum(e.heights[..i + 1]));
    assert a.0 == s1.(cursor := i);
    var s2 := Step(c, s1, e);
    assert s2 == s.(cursor := i);
    assert [Scroll, e][1..] == [e] && [e][1..] == [];
    assert Run(c, s2, []) == Some(s2);
    assert Run(c, s1, [e]) == Some(s2);
  }

  /** A page of three sections, 1000 pixels apart, that report zero height. */
  const FlatPage := Config(true, 3, false, false)
  const FlatTops: seq<int> := [0, 1000, 2000]
  const FlatHeights: seq<nat> := [0, 0, 0]

  /** A scroll event on that page and the frame that scans with the page scrolled to `y`. */
  function ScrollTo(y: int): seq<Event> {
    [Scroll, Tick(y, 1000, FlatTops, FlatHeights)]
  }

  /** On that page, scrolling to the top and then twice to 2000 pixels brings the cursor to 2. */
  lemma {:induction false} FlatPageScans()
    ensures Run(FlatPage, Init(FlatPage), ScrollTo(0) + ScrollTo(2000) + ScrollTo(2000))
            == Some(Init(FlatPage).(cursor := 2))
  {
    var c, tops, heights := FlatPage, FlatTops, FlatHeights;
    assert heights[..1] == [0] && heights[..2] == [0, 0] && heights[..3] == heights;
    var s0 := Init(c);
    assert FirstPassed(0, 1000, tops, -1, 0) == Some(0);
    ScrollThenQuietScan(c, s0, ScrollTo(0)[1], 0);
    assert FirstPassed(2000, 1000, tops, 0, 0) == Some(1);
    ScrollThenQuietScan(c, s0.(cursor := 0), ScrollTo(2000)[1], 1);
    assert FirstPassed(2000, 1000, tops, 1, 1) == FirstPassed(2000, 1000, tops, 1, 2);
    assert FirstPassed(2000, 1000, tops, 1, 0) == Some(2);
    ScrollThenQuietScan(c, s0.(cursor := 1), ScrollTo(2000)[1], 2);
    RunAppend(c, s0, ScrollTo(0), ScrollTo(2000));
    RunAppend(c, s0, ScrollTo(0) + ScrollTo(2000), ScrollTo(2000));
  }

  /**
   * The start-up activation of section 0 is not limited to indices beyond the cursor: when
   * the sections report zero height (nothing extends, so the flag is cleared at once), three
   * scans can bring the cursor to 2 before the 100 ms timer fires and sets it back to 0.
   */
  lemma StartupCanLowerCursor()
    ensures var s := Run(FlatPage, Init(FlatPage), ScrollTo(0) + ScrollTo(2000) + ScrollTo(2000));
            s.Some? && s.value.cursor == 2
            && Run(FlatPage, s.value, [InitialTimer(FlatHeights)]) == Some(s.value.(cursor := 0, initialPending := false))
  {
    FlatPageScans();
    var s6 := Init(FlatPage).(cursor := 2);
    assert FlatHeights[..1] == [0];
    assert Step(FlatPage, s6, InitialTimer(FlatHeights)) == s6.(cursor := 0, initialPending := false);
    assert [InitialTimer(FlatHeights)][1..] == [];
  }

  /**
   * The loop of `animateGridLine(i)`: the heights of sections `0..i` added up one by one, or
   * nothing when section `i` does not exist, since reading the height of a missing section throws.
   */
  method HeightThrough(heights: seq<nat>, i: nat) returns (total: Option<nat>)
    ensures total == if i < |heights| then Some(Sum(heights[..i + 1])) else None
  {
    var acc: nat := 0;
    var k: nat := 0;
    while k <= i
      invariant k <= i + 1 && k <= |heights|
      invariant acc == Sum(heights[..k])
    {
      if k == |heights| {
        return None;
      }
      SumThrough(heights, k);
      acc := acc + heights[k];
      k := k + 1;
    }
    return Some(acc);
  }

  /**
   * The animator as the script holds it: fields of one object that the callbacks update in
   * place.  Each method performs exactly the corresponding `Step` and keeps `Valid()`.
   */
  class Animator {
    const config: Config
    var cursor: int
    var isAnimating: bool
    var height: nat
    var pendingFrame: Option<nat>
    var releaseTimerPending: bool
    var initialTimerPending: bool
    var ticking: bool
    var uiGridVisible: bool
    var iframeTimers: nat
    var iframeVisible: bool

    /** The fields read as a `State` value. */
    function Snapshot(): State
      reads this
    {
      State(cursor, isAnimating, height, pendingFrame, releaseTimerPending,
                     initialTimerPending, ticking, uiGridVisible, iframeTimers, iframeVisible)
    }

    ghost predicate Valid()
      reads this
    {
      Consistent(config, Snapshot())
    }

    /** The constructor followed by `initGridLine`: inert without a grid line, otherwise the start-up timer is armed. */
    constructor (config: Config)
      ensures this.config == config && Snapshot() == Init(config) && Valid()
    {
      this.config := config;
      cursor := -1;
      isAnimating := false;
      height := 0;
      pendingFrame := None;
      releaseTimerPending := false;
      initialTimerPending := config.hasGridLine;
      ticking := false;
      uiGridVisible := false;
      iframeTimers := 0;
      iframeVisible := false;
    }

    /** `animateGridLine(i)`, with the section heights summed by `HeightThrough`. */
    method Activate(i: nat, heights: seq<nat>) returns (outcome: Outcome)
      requires Valid() && config.hasGridLine && |heights| == config.sectionCount
      modifies this
      ensures (Snapshot(), outcome) == AnimateGridLine(config, old(Snapshot()), i, heights)
      ensures Valid()
    {
      if isAnimating || i == cursor {
        return Skipped;
      }
      isAnimating := true;
      cursor := i;
      var sum := HeightThrough(heights, i);
      if sum.None? {
        return Failed;
      }
      var total := sum.value;
      if total > height {
        pendingFrame := Some(total);
        if i == 1 {
          if config.hasUiGrid {
            uiGridVisible := true;
          }
          if config.hasIframe {
            iframeTimers := iframeTimers + 1;
          }
        }
        releaseTimerPending := true;
        outcome := Extended(total);
      } else {
        isAnimating := false;
        outcome := NotExtended(total);
      }
    }

    /** The body of `updateGridLine`: scan the sections in order and activate the first one due. */
    method Scan(scrollY: int, viewport: nat, tops: seq<int>, heights: seq<nat>) returns (activated: Option<nat>)
      requires Valid() && config.hasGridLine
      requires |tops| == config.sectionCount && |heights| == config.sectionCount
      modifies this
      ensures (Snapshot(), activated) == UpdateGridLine(config, old(Snapshot()), scrollY, viewport, tops, heights)
      ensures Valid()
    {
      var i := 0;
      while i < |tops|
        invariant 0 <= i <= |tops|
        invariant Snapshot() == old(Snapshot())
        invariant FirstPassed(scrollY, viewport, tops, cursor, i) == FirstPassed(scrollY, viewport, tops, cursor, 0)
      {
        if Passed(scrollY, viewport, tops[i]) && i > cursor {
          activated := Some(i);
          var _ := Activate(i, heights);
          return;
        }
        i := i + 1;
      }
      activated := None;
    }

    /** The 100 ms start-up timer: activate section 0. */
    method InitialTimerFired(heights: seq<nat>)
      requires Valid() && Enabled(config, Snapshot(), InitialTimer(heights))
      modifies this
      ensures Valid() && Snapshot() == Step(config, old(Snapshot()), InitialTimer(heights))
    {
      StepKeepsConsistent(config, Snapshot(), InitialTimer(heights));
      initialTimerPending := false;
      var _ := Activate(0, heights);
    }

    /** A scroll event: request one scan frame unless one is already requested. */
    method OnScroll()
      requires Valid()
      modifies this
      ensures Valid() && Snapshot() == Step(config, old(Snapshot()), Scroll)
    {
      StepKeepsConsistent(config, Snapshot(), Scroll);
      if config.hasGridLine && !ticking {
        ticking := true;
      }
    }

    /** The requested scan frame: run the scan, then release the throttle latch. */
    method TickFired(scrollY: int, viewport: nat, tops: seq<int>, heights: seq<nat>)
      requires Valid() && Enabled(config, Snapshot(), Tick(scrollY, viewport, tops, heights))
      modifies this
      ensures Valid() && Snapshot() == Step(config, old(Snapshot()), Tick(scrollY, viewport, tops, heights))
    {
      StepKeepsConsistent(config, Snapshot(), Tick(scrollY, viewport, tops, heights));
      var _ := Scan(scrollY, viewport, tops, heights);
      ticking := false;
    }

    /** The frame requested by an extending activation writes the new height. */
    method FrameFired()
      requires Valid() && Enabled(config, Snapshot(), Frame)
      modifies this
      ensures Valid() && Snapshot() == Step(config, old(Snapshot()), Frame)
      ensures height > old(height)
    {
      StepKeepsConsistent(config, Snapshot(), Frame);
      height := pendingFrame.value;
      pendingFrame := None;
    }

    /** The 1400 ms timer ends the animation window. */
    method ReleaseTimerFired()
      requires Valid() && Enabled(config, Snapshot(), ReleaseTimer)
      modifies this
      ensures Valid() && Snapshot() == Step(config, old(Snapshot()), ReleaseTimer)
    {
      StepKeepsConsistent(config, Snapshot(), ReleaseTimer);
      isAnimating := false;
      releaseTimerPending := false;
    }

    /** The 800 ms timer reveals the preview iframe. */
    method IframeTimerFired()
      requires Valid() && Enabled(config, Snapshot(), IframeTimer)
      modifies this
      ensures Valid() && Snapshot() == Step(config, old(Snapshot()), IframeTimer)
    {
      StepKeepsConsistent(config, Snapshot(), IframeTimer);
      iframeTimers := iframeTimers - 1;
      iframeVisible := true;
    }
  }
}
