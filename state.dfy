/** The navigator's scalar state as one value, and the handlers written as functions from the old
    state to the new. The controller's methods are proved to compute these functions. */
module NavState {
  import opened Slides

  datatype Mode = Desktop | Mobile

  /** A tween in flight: it started at slide `from` with the viewport `height` of that moment and
      ends at `target`. `resetsCooldown` marks the tweens started by `go`, whose promise resets
      the cooldown timestamp on completion. */
  datatype Tween = Tween(from: int, target: int, height: int, resetsCooldown: bool)

  /** The viewport sizes the closure remembers: the last inner width and height seen by the
      resize handler, and the height cached on entering mobile mode (0 when none). */
  datatype Viewport = Viewport(lastViewportW: int, lastViewportH: int, mobileViewportH: int)

  /** The single-valued page state the script writes: the track's inline height and translation
      (None when cleared), the `is-native-mobile` body class, the removal of `is-locked`, the armed
      menu trigger, and whether `buildDots` has created the buttons. */
  datatype Dom = Dom(trackHeight: Option<int>, trackOffset: Option<int>, nativeMobile: bool,
                     unlocked: bool, burgerArmed: bool, dotsBuilt: bool)

  /** What mobile mode has attached: the section observer, the scroll listener, and a scroll
      frame requested but not yet run. */
  datatype Wiring = Wiring(observerAttached: bool, scrollListening: bool, scrollFramePending: bool)

  /** The closure variables of the navigator, the page state it writes, and the tweens whose
      frame loops are still running. */
  datatype Snapshot = Snapshot(
    index: int,
    mode: Mode,
    isAnimating: bool,
    startTouchY: Option<int>,
    wheelAccum: int,
    lastNavAt: int,
    introApplied: bool,
    cueDismissed: bool,
    viewport: Viewport,
    dom: Dom,
    wiring: Wiring,
    tweens: seq<Tween>)

  /** The values the current index takes: a slide, or -1 and 0 on a page without slides
      (where `End` tweens to `n - 1`). */
  predicate IndexOk(n: nat, i: int)
  {
    if n == 0 then -1 <= i <= 0 else 0 <= i < n
  }

  /** A tween between valid indices; one started by `go` moves to a neighbouring slide. */
  predicate TweenOk(n: nat, t: Tween)
  {
    IndexOk(n, t.from) && IndexOk(n, t.target) && (t.resetsCooldown ==> Abs(t.target - t.from) == 1)
  }

  /** Desktop mode, no tween running and the cooldown over: the guard shared by `go` and the wheel. */
  predicate Ready(s: Snapshot, now: int)
  {
    s.mode == Desktop && !s.isAnimating && now - s.lastNavAt >= NavCooldown
  }

  /** `hideScrollCue` when `when` holds: latches the dismissal, if the page has a cue. */
  function HideCue(s: Snapshot, hasCue: bool, when: bool): Snapshot
  {
    if !hasCue || s.cueDismissed || !when then s else s.(cueDismissed := true)
  }

  /** The cue ends up dismissed exactly when it was already, or the page has one and `when`
      holds; nothing else changes. */
  lemma HideCueSpec(s: Snapshot, hasCue: bool, when: bool)
    ensures HideCue(s, hasCue, when).cueDismissed <==> s.cueDismissed || (when && hasCue)
    ensures HideCue(s, hasCue, when).(cueDismissed := s.cueDismissed) == s
  {
  }

  /** Hiding the cue is a latch: a second call changes nothing. */
  lemma HideCueIdempotent(s: Snapshot, hasCue: bool)
    ensures HideCue(HideCue(s, hasCue, true), hasCue, true) == HideCue(s, hasCue, true)
  {
  }

  /** The start phase of `tweenTo`: rejected outside desktop mode or while a tween runs;
      otherwise the flag is set and a tween from the current slide is in flight. */
  function StartTween(s: Snapshot, target: int, height: int, resets: bool): (r: Snapshot)
    ensures r.index == s.index && r.mode == s.mode
    ensures r != s ==> r.isAnimating && |r.tweens| == |s.tweens| + 1
  {
    if s.mode != Desktop || s.isAnimating then s
    else s.(isAnimating := true, tweens := s.tweens + [Tween(s.index, target, height, resets)])
  }

  /** A tween starts exactly in desktop mode with none running; it keeps the index and appends
      one tween from the current slide to the target, and changes nothing else. */
  lemma StartTweenSpec(s: Snapshot, target: int, height: int, resets: bool)
    ensures var r := StartTween(s, target, height, resets);
      (r == s <==> s.mode != Desktop || s.isAnimating) &&
      (r != s ==> r.isAnimating && r.index == s.index &&
                  r.tweens == s.tweens + [Tween(s.index, target, height, resets)] &&
                  r == s.(isAnimating := true, tweens := r.tweens))
  {
    if s.mode == Desktop && !s.isAnimating {
      assert StartTween(s, target, height, resets).isAnimating != s.isAnimating;
    }
  }

  /** `go(delta)`: the request is dropped unless the navigator is ready and the clamped target
      differs from the current slide; otherwise the timestamp is set to `now` and a tween to the
      clamped target starts. */
  function GoEffect(s: Snapshot, n: nat, delta: int, now: int, height: int): (r: Snapshot)
    ensures r.index == s.index && r.mode == s.mode
  {
    if s.mode != Desktop then s
    else if s.isAnimating || now - s.lastNavAt < NavCooldown then s
    else
      var next := ClampIndex(n, s.index + delta);
      if next == s.index then s
      else StartTween(s.(lastNavAt := now), next, height, true)
  }

  /** `go` changes the state exactly when the navigator is ready and the clamped target is
      another slide (a dropped request does not even touch the timestamp), and then only stamps
      the time, sets the flag and appends the tween. */
  lemma GoEffectSpec(s: Snapshot, n: nat, delta: int, now: int, height: int)
    ensures var r := GoEffect(s, n, delta, now, height);
      (r != s <==> Ready(s, now) && ClampIndex(n, s.index + delta) != s.index) &&
      (r != s ==> r == s.(lastNavAt := now, isAnimating := true,
        tweens := s.tweens + [Tween(s.index, ClampIndex(n, s.index + delta), height, true)]))
  {
    if Ready(s, now) && ClampIndex(n, s.index + delta) != s.index {
      assert GoEffect(s, n, delta, now, height).isAnimating != s.isAnimating;
    }
  }

  /** From an index in range, a single step tweens to a neighbouring slide that is in range. */
  lemma GoStepIsAdjacent(s: Snapshot, n: nat, delta: int, now: int, height: int)
    requires IndexOk(n, s.index) && (delta == 1 || delta == -1)
    requires GoEffect(s, n, delta, now, height) != s
    ensures |GoEffect(s, n, delta, now, height).tweens| > |s.tweens|
    ensures var t := GoEffect(s, n, delta, now, height).tweens[|s.tweens|];
      t.from == s.index && IndexOk(n, t.target) && Abs(t.target - t.from) == 1
  {
    GoEffectSpec(s, n, delta, now, height);
  }

  /** `layoutDesktop` with viewport height `h` on the scalar state: the track is n viewports tall
      and translated so that the current slide fills the viewport. */
  function DesktopLayout(s: Snapshot, n: nat, h: int): Snapshot
  {
    s.(dom := s.dom.(trackHeight := Some(n * h), trackOffset := Some(-s.index * h)))
  }

  /** The last frame of the k-th running tween at time `now`: the track rests at the target's
      offset, the index becomes the target, the flag is cleared and the tween's loop ends; a tween
      started by `go` then stamps the completion time. */
  function FinishTween(s: Snapshot, k: nat, now: int): (r: Snapshot)
    requires k < |s.tweens|
    ensures !r.isAnimating && r.mode == s.mode && |r.tweens| == |s.tweens| - 1
  {
    var t := s.tweens[k];
    s.(index := t.target, isAnimating := false,
       dom := s.dom.(trackOffset := Some(-t.target * t.height)),
       lastNavAt := if t.resetsCooldown then now else s.lastNavAt,
       tweens := s.tweens[..k] + s.tweens[k + 1..])
  }

  /** A completed tween leaves the index on its target and the track at that slide's offset, no
      tween flag, and the other tweens still running in their order. */
  lemma FinishTweenSpec(s: Snapshot, k: nat, now: int)
    requires k < |s.tweens|
    ensures var r := FinishTween(s, k, now);
      r.index == s.tweens[k].target && !r.isAnimating &&
      r.dom.trackOffset == Some(-r.index * s.tweens[k].height) &&
      |r.tweens| == |s.tweens| - 1 &&
      (forall j :: 0 <= j < k ==> r.tweens[j] == s.tweens[j]) &&
      (forall j :: k <= j < |r.tweens| ==> r.tweens[j] == s.tweens[j + 1])
  {
  }

  /** A `go` that fires and then completes (the only tween running) moves the index by exactly
      one slide, in the requested direction, and leaves the navigator idle with the cooldown
      stamped at the completion time. */
  lemma GoThenComplete(s: Snapshot, n: nat, delta: int, now: int, height: int, done: int)
    requires IndexOk(n, s.index) && (delta == 1 || delta == -1) && s.tweens == []
    requires Ready(s, now) && ClampIndex(n, s.index + delta) != s.index
    ensures |GoEffect(s, n, delta, now, height).tweens| == 1
    ensures var f := FinishTween(GoEffect(s, n, delta, now, height), 0, done);
      f.index == ClampIndex(n, s.index + delta) && Abs(f.index - s.index) == 1 && IndexOk(n, f.index) &&
      !f.isAnimating && f.lastNavAt == done &&
      f.tweens == [] && f.dom.trackOffset == Some(-f.index * height)
  {
    GoEffectSpec(s, n, delta, now, height);
  }

  /** Within 320 ms of a completed step `go` is dropped, and from 320 ms on it fires again. */
  lemma CooldownAfterStep(s: Snapshot, n: nat, delta: int, now: int, height: int, done: int, later: int)
    requires IndexOk(n, s.index) && (delta == 1 || delta == -1) && s.tweens == []
    requires Ready(s, now) && ClampIndex(n, s.index + delta) != s.index
    ensures |GoEffect(s, n, delta, now, height).tweens| == 1
    ensures var f := FinishTween(GoEffect(s, n, delta, now, height), 0, done);
      (later - done < NavCooldown ==> GoEffect(f, n, delta, later, height) == f) &&
      (later - done >= NavCooldown && ClampIndex(n, f.index + delta) != f.index ==>
        GoEffect(f, n, delta, later, height).isAnimating)
  {
    GoThenComplete(s, n, delta, now, height, done);
    var f := FinishTween(GoEffect(s, n, delta, now, height), 0, done);
    GoEffectSpec(f, n, delta, later, height);
  }

  /** `onWheel`: outside desktop mode nothing happens. In desktop mode a delta above one pixel
      dismisses the cue; during a tween or the cooldown the event stops there, leaving the
      accumulator untouched; otherwise the delta is accumulated, and reaching the threshold
      empties the accumulator and calls `go` with the sign of the sum. */
  function WheelEffect(s: Snapshot, n: nat, hasCue: bool, deltaY: int, now: int, height: int): (r: Snapshot)
    ensures r.index == s.index && r.mode == s.mode
    ensures s.mode == Mobile ==> r == s
  {
    if s.mode != Desktop then s
    else
      var s1 := HideCue(s, hasCue, Abs(deltaY) > WheelCueThreshold);
      if s1.isAnimating || now - s1.lastNavAt < NavCooldown then s1
      else
        var step := WheelStep(s1.wheelAccum, deltaY);
        if step.1 == 0 then s1.(wheelAccum := step.0)
        else GoEffect(s1.(wheelAccum := 0), n, step.1, now, height)
  }

  /** A wheel event during a tween or within the cooldown touches neither the accumulator, nor
      the index, nor the tweens, nor the timestamp: at most the cue is dismissed. */
  lemma WheelIgnoredWhileBusy(s: Snapshot, n: nat, hasCue: bool, deltaY: int, now: int, height: int)
    requires s.isAnimating || now - s.lastNavAt < NavCooldown
    ensures WheelEffect(s, n, hasCue, deltaY, now, height).(cueDismissed := s.cueDismissed) == s
  {
    HideCueSpec(s, hasCue, Abs(deltaY) > WheelCueThreshold);
  }

  /** Three wheel events of 25 pixels on a ready navigator below the last slide fire exactly one
      step forward, on the third event, and leave the accumulator at 0. */
  lemma WheelThreeTicks(s: Snapshot, n: nat, hasCue: bool, now: int, height: int)
    requires Ready(s, now) && s.wheelAccum == 0 && 0 <= s.index && s.index + 1 < n
    ensures var s1 := WheelEffect(s, n, hasCue, 25, now, height);
      s1.tweens == s.tweens && s1.wheelAccum == 25
    ensures var s2 := WheelEffect(WheelEffect(s, n, hasCue, 25, now, height), n, hasCue, 25, now, height);
      s2.tweens == s.tweens && s2.wheelAccum == 50
    ensures var s3 := WheelEffect(WheelEffect(WheelEffect(s, n, hasCue, 25, now, height), n, hasCue, 25, now, height), n, hasCue, 25, now, height);
      s3.wheelAccum == 0 && s3.index == s.index && s3.lastNavAt == now &&
      s3.tweens == s.tweens + [Tween(s.index, s.index + 1, height, true)]
  {
    var s1 := HideCue(s, hasCue, true).(wheelAccum := 25);
    assert WheelEffect(s, n, hasCue, 25, now, height) == s1;
    assert HideCue(s1, hasCue, true) == s1;
    var s2 := s1.(wheelAccum := 50);
    assert WheelEffect(s1, n, hasCue, 25, now, height) == s2;
    assert HideCue(s2, hasCue, true) == s2;
    var g := s2.(wheelAccum := 0);
    assert WheelEffect(s2, n, hasCue, 25, now, height) == GoEffect(g, n, 1, now, height);
    GoEffectSpec(g, n, 1, now, height);
    assert Ready(g, now) && ClampIndex(n, g.index + 1) == s.index + 1;
  }

  /** `onTouchStart`: in desktop mode, remembers the vertical position of the first touch. */
  function TouchStartEffect(s: Snapshot, touches: seq<int>): Snapshot
  {
    if s.mode != Desktop then s
    else if |touches| > 0 then s.(startTouchY := Some(touches[0]))
    else s
  }

  /** A touch start records the first touch exactly in desktop mode with at least one touch,
      and never changes anything else. */
  lemma TouchStartSpec(s: Snapshot, touches: seq<int>)
    ensures var r := TouchStartEffect(s, touches);
      r.(startTouchY := s.startTouchY) == s &&
      (s.mode == Desktop && |touches| > 0 ==> r.startTouchY == Some(touches[0])) &&
      (s.mode != Desktop || |touches| == 0 ==> r == s)
  {
  }

  /** `onTouchMove`, given the vertical position of the first touch; the flag says whether the
      browser's default handling was prevented. Nothing happens outside desktop mode, without a
      start position, or during a tween; a drag of more than 8 pixels dismisses the cue; one of
      more than 30 pixels forgets the start and calls `go` in the drag's direction. */
  function TouchMoveEffect(s: Snapshot, n: nat, hasCue: bool, clientY: int, now: int, height: int): (r: (Snapshot, bool))
    ensures r.0.index == s.index && r.0.mode == s.mode
    ensures r.1 ==> r.0.startTouchY.None?
  {
    if s.mode != Desktop || s.startTouchY.None? || s.isAnimating then (s, false)
    else
      var start := s.startTouchY.value;
      var s1 := HideCue(s, hasCue, Abs(start - clientY) > TouchCueThreshold);
      var dir := TouchStep(start, clientY);
      if dir == 0 then (s1, false)
      else (GoEffect(s1.(startTouchY := None), n, dir, now, height), true)
  }

  /** A move navigates only from a recorded start in desktop mode with no tween running, and only
      past 30 pixels; a shorter drag keeps the start and the tweens. */
  lemma TouchMoveThreshold(s: Snapshot, n: nat, hasCue: bool, clientY: int, now: int, height: int)
    ensures var r := TouchMoveEffect(s, n, hasCue, clientY, now, height);
      r.0.tweens != s.tweens ==>
        s.mode == Desktop && s.startTouchY.Some? && !s.isAnimating &&
        Abs(s.startTouchY.value - clientY) > TouchThreshold && r.0.startTouchY.None? && r.1
    ensures var r := TouchMoveEffect(s, n, hasCue, clientY, now, height);
      s.startTouchY.Some? && Abs(s.startTouchY.value - clientY) <= TouchThreshold ==>
        r.0.(cueDismissed := s.cueDismissed) == s && !r.1
    ensures s.mode != Desktop || s.startTouchY.None? || s.isAnimating ==>
      TouchMoveEffect(s, n, hasCue, clientY, now, height) == (s, false)
    ensures var r := TouchMoveEffect(s, n, hasCue, clientY, now, height);
      s.mode == Desktop && s.startTouchY.Some? && !s.isAnimating &&
      Abs(s.startTouchY.value - clientY) > TouchThreshold ==>
        r.0.startTouchY.None? && r.1
    ensures var r := TouchMoveEffect(s, n, hasCue, clientY, now, height);
      Ready(s, now) && s.startTouchY.Some? && TouchStep(s.startTouchY.value, clientY) != 0 &&
      ClampIndex(n, s.index + TouchStep(s.startTouchY.value, clientY)) != s.index ==>
        r.0.tweens ==
          s.tweens + [Tween(s.index, ClampIndex(n, s.index + TouchStep(s.startTouchY.value, clientY)), height, true)]
  {
    if s.mode == Desktop && s.startTouchY.Some? && !s.isAnimating {
      var start := s.startTouchY.value;
      var s1 := HideCue(s, hasCue, Abs(start - clientY) > TouchCueThreshold);
      HideCueSpec(s, hasCue, Abs(start - clientY) > TouchCueThreshold);
      var dir := TouchStep(start, clientY);
      if dir != 0 {
        GoEffectSpec(s1.(startTouchY := None), n, dir, now, height);
      }
    }
  }

  /** `onTouchEnd` always forgets the start position. */
  function TouchEndEffect(s: Snapshot): Snapshot
  {
    s.(startTouchY := None)
  }

  /** After a touch end there is no start position, and nothing else has changed. */
  lemma TouchEndSpec(s: Snapshot)
    ensures TouchEndEffect(s).startTouchY.None?
    ensures TouchEndEffect(s).(startTouchY := s.startTouchY) == s
  {
  }

  /** What a key press does: the new state, whether the default action was prevented, and the
      slide (if any) the page is asked to scroll into view natively. */
  datatype KeyResult = KeyResult(state: Snapshot, prevented: bool, scrollTo: Option<nat>)

  /** `onKeyDown`. In desktop mode the forward keys dismiss the cue and `go(+1)`, the backward keys
      `go(-1)`, Home tweens to the first slide and End (after dismissing the cue) to the last.
      In mobile mode Home and End scroll natively to the first or last slide. */
  function KeyEffect(s: Snapshot, n: nat, hasCue: bool, key: Key, now: int, height: int): (r: KeyResult)
    ensures r.state.index == s.index && r.state.mode == s.mode
    ensures r.scrollTo.Some? ==> s.mode != Desktop && r.scrollTo.value < n
  {
    if s.mode == Desktop then
      if IsForwardKey(key) then KeyResult(GoEffect(HideCue(s, hasCue, true), n, 1, now, height), true, None)
      else if IsBackwardKey(key) then KeyResult(GoEffect(s, n, -1, now, height), true, None)
      else if key == Home then KeyResult(StartTween(s, 0, height, false), true, None)
      else if key == End then KeyResult(StartTween(HideCue(s, hasCue, true), n - 1, height, false), true, None)
      else KeyResult(s, false, None)
    else
      if key == Home then KeyResult(s, true, if n > 0 then Some(0) else None)
      else if key == End then KeyResult(HideCue(s, hasCue, true), true, if n > 0 then Some(n - 1) else None)
      else KeyResult(s, false, None)
  }

  /** In mobile mode no key moves the index or starts a tween: Home and End only ask for a native
      scroll to an existing slide, End also dismissing the cue. */
  lemma MobileKeysOnlyScroll(s: Snapshot, n: nat, hasCue: bool, key: Key, now: int, height: int)
    requires s.mode == Mobile
    ensures var r := KeyEffect(s, n, hasCue, key, now, height);
      r.state.(cueDismissed := s.cueDismissed) == s &&
      (r.scrollTo.Some? <==> n > 0 && (key == Home || key == End)) &&
      (r.scrollTo.Some? ==> r.scrollTo.value < n) &&
      (r.prevented <==> key == Home || key == End)
    ensures var r := KeyEffect(s, n, hasCue, key, now, height);
      n > 0 ==> (key == Home ==> r.scrollTo == Some(0)) && (key == End ==> r.scrollTo == Some(n - 1))
  {
    if key == End {
      HideCueSpec(s, hasCue, true);
    }
  }

  /** Keys that are not navigation keys change nothing in either mode. */
  lemma OtherKeysIgnored(s: Snapshot, n: nat, hasCue: bool, code: OtherCode, now: int, height: int)
    ensures KeyEffect(s, n, hasCue, OtherKey(code), now, height) == KeyResult(s, false, None)
  {
  }

  /** Once a tween has started, the flag stays set until the tween completes: a touch move, a key
      and a wheel event leave it set. */
  lemma InputKeepsFlag(s: Snapshot, n: nat, hasCue: bool, clientY: int, key: Key, deltaY: int,
                       now: int, height: int)
    requires s.isAnimating && s.mode == Desktop
    ensures TouchMoveEffect(s, n, hasCue, clientY, now, height).0.isAnimating
    ensures KeyEffect(s, n, hasCue, key, now, height).state.isAnimating
    ensures WheelEffect(s, n, hasCue, deltaY, now, height).isAnimating
  {
    var h := HideCue(s, hasCue, true);
    HideCueSpec(s, hasCue, true);
    HideCueSpec(s, hasCue, Abs(deltaY) > WheelCueThreshold);
    if IsForwardKey(key) {
      GoEffectSpec(h, n, 1, now, height);
    } else if IsBackwardKey(key) {
      GoEffectSpec(s, n, -1, now, height);
    }
  }

  /** Only entering mobile mode clears the flag of a running tween: a resize keeps it exactly when
      the media query does not ask for mobile mode. */
  lemma ResizeKeepsFlagInDesktop(s: Snapshot, n: nat, hasCue: bool, hasObserverApi: bool, nextW: int,
                                 nextH: int, vp: int, mobileQuery: bool, tops: seq<int>, scrollY: int)
    requires s.isAnimating && s.mode == Desktop && |tops| == n
    ensures ResizeEffect(s, n, hasCue, hasObserverApi, nextW, nextH, vp, mobileQuery, tops, scrollY).isAnimating
      <==> !mobileQuery
  {
    if mobileQuery {
      var s1 := s.(viewport := Viewport(nextW, nextH, s.viewport.mobileViewportH));
      EnterMobileSpec(s1, n, hasCue, hasObserverApi, vp, tops, scrollY);
      var s2 := EnterMobile(s1, n, hasCue, hasObserverApi, vp, tops, scrollY);
      SetIndexSpec(s2, n, hasCue, Nearest(tops, Probe(scrollY, ActiveHeight(s2, vp))));
    }
  }

  /** The end of the intro keeps a running tween's flag when it forces desktop mode. */
  lemma IntroKeepsFlagInDesktop(s: Snapshot, n: nat, hasCue: bool, hasDots: bool, hasBurger: bool,
                                hasObserverApi: bool, vp: int, tops: seq<int>, scrollY: int)
    requires s.isAnimating
    ensures FinalizeIntroEffect(s, false, n, hasCue, hasDots, hasBurger, hasObserverApi, vp, tops, scrollY).isAnimating
  {
  }

  /** `r` keeps the index of `s` and either keeps its tweens or adds one tween from the current
      slide to a slide in range. */
  predicate AtMostOneTweenFromIndex(s: Snapshot, r: Snapshot, n: nat)
  {
    r.index == s.index &&
    (r.tweens == s.tweens ||
     (|r.tweens| == |s.tweens| + 1 && r.tweens[..|s.tweens|] == s.tweens &&
      r.tweens[|s.tweens|].from == s.index && IndexOk(n, r.tweens[|s.tweens|].target)))
  }

  /** Starting a tween to a slide in range adds at most one tween, from the current slide. */
  lemma StartTweenFromIndex(s: Snapshot, n: nat, target: int, height: int, resets: bool)
    requires IndexOk(n, target)
    ensures AtMostOneTweenFromIndex(s, StartTween(s, target, height, resets), n)
  {
    StartTweenSpec(s, target, height, resets);
    var r := StartTween(s, target, height, resets);
    if r != s {
      assert r.tweens[..|s.tweens|] == s.tweens;
    }
  }

  /** A `go` from a valid index adds at most one tween, from the current slide to one in range. */
  lemma GoFromIndex(s: Snapshot, n: nat, delta: int, now: int, height: int)
    requires IndexOk(n, s.index) && (delta == 1 || delta == -1)
    ensures AtMostOneTweenFromIndex(s, GoEffect(s, n, delta, now, height), n)
  {
    GoEffectSpec(s, n, delta, now, height);
    var r := GoEffect(s, n, delta, now, height);
    if r != s {
      GoStepIsAdjacent(s, n, delta, now, height);
      assert r.tweens[..|s.tweens|] == s.tweens;
    }
  }

  /** In desktop mode a key starts at most one tween, never moves the index by itself, and the
      tween it starts goes to a slide in range, starting from the current slide. */
  lemma DesktopKeyTweens(s: Snapshot, n: nat, hasCue: bool, key: Key, now: int, height: int)
    requires s.mode == Desktop && IndexOk(n, s.index)
    ensures AtMostOneTweenFromIndex(s, KeyEffect(s, n, hasCue, key, now, height).state, n)
  {
    var h := HideCue(s, hasCue, true);
    if IsForwardKey(key) {
      GoFromIndex(h, n, 1, now, height);
    } else if IsBackwardKey(key) {
      GoFromIndex(s, n, -1, now, height);
    } else if key == Home {
      StartTweenFromIndex(s, n, 0, height, false);
    } else if key == End {
      StartTweenFromIndex(h, n, n - 1, height, false);
    }
  }

  /** Which way each key moves a ready desktop navigator: the forward keys tween to the next
      slide and the backward keys to the previous one (both as a `go`, once the cooldown is
      over), Home to the first slide and End to the last (whenever no tween runs); every
      navigation key, and no other, prevents the default. */
  lemma DesktopKeyTargets(s: Snapshot, n: nat, hasCue: bool, key: Key, now: int, height: int)
    requires s.mode == Desktop && IndexOk(n, s.index)
    ensures var r := KeyEffect(s, n, hasCue, key, now, height);
      IsForwardKey(key) && Ready(s, now) && s.index + 1 < n ==>
        r.state.tweens == s.tweens + [Tween(s.index, s.index + 1, height, true)]
    ensures var r := KeyEffect(s, n, hasCue, key, now, height);
      IsBackwardKey(key) && Ready(s, now) && 0 < s.index ==>
        r.state.tweens == s.tweens + [Tween(s.index, s.index - 1, height, true)]
    ensures var r := KeyEffect(s, n, hasCue, key, now, height);
      key == Home && !s.isAnimating ==> r.state.tweens == s.tweens + [Tween(s.index, 0, height, false)]
    ensures var r := KeyEffect(s, n, hasCue, key, now, height);
      key == End && !s.isAnimating ==> r.state.tweens == s.tweens + [Tween(s.index, n - 1, height, false)]
    ensures KeyEffect(s, n, hasCue, key, now, height).prevented <==> !key.OtherKey?
  {
    var h := HideCue(s, hasCue, true);
    HideCueSpec(s, hasCue, true);
    if IsForwardKey(key) {
      GoEffectSpec(h, n, 1, now, height);
    } else if IsBackwardKey(key) {
      GoEffectSpec(s, n, -1, now, height);
    } else if key == Home {
      StartTweenSpec(s, 0, height, false);
    } else if key == End {
      StartTweenSpec(h, n - 1, height, false);
    }
  }

  /** `setIndex(next)`: the index becomes the clamped request; nothing changes when that is the
      current slide; a move to a slide after the first dismisses the cue. */
  function SetIndexEffect(s: Snapshot, n: nat, hasCue: bool, next: int): (r: Snapshot)
    ensures r.index == ClampIndex(n, next)
    ensures r.mode == s.mode && r.isAnimating == s.isAnimating && r.tweens == s.tweens
    ensures r.viewport == s.viewport && r.dom == s.dom && r.wiring == s.wiring
  {
    var c := ClampIndex(n, next);
    if c == s.index then s
    else HideCue(s.(index := c), hasCue, c > 0)
  }

  /** The index becomes the clamped request, the state is unchanged exactly when that is the
      current slide, and otherwise only the cue may be dismissed besides. */
  lemma SetIndexSpec(s: Snapshot, n: nat, hasCue: bool, next: int)
    ensures var r := SetIndexEffect(s, n, hasCue, next);
      r.index == ClampIndex(n, next) &&
      (r == s <==> ClampIndex(n, next) == s.index) &&
      (r.cueDismissed <==> s.cueDismissed || (hasCue && r.index > 0 && r.index != s.index)) &&
      r.(index := s.index, cueDismissed := s.cueDismissed) == s
  {
    var c := ClampIndex(n, next);
    if c != s.index {
      HideCueSpec(s.(index := c), hasCue, c > 0);
    }
  }

  /** Setting the index twice to the same request is setting it once. */
  lemma SetIndexIdempotent(s: Snapshot, n: nat, hasCue: bool, next: int)
    ensures var once := SetIndexEffect(s, n, hasCue, next);
      SetIndexEffect(once, n, hasCue, next) == once
  {
    SetIndexSpec(s, n, hasCue, next);
  }

  /** `onMobileScroll` at scroll position `scrollY`: in mobile mode it dismisses the cue past 20
      pixels and leaves a scroll frame pending (a pending one absorbs the request). */
  function MobileScrollEffect(s: Snapshot, hasCue: bool, scrollY: int): Snapshot
  {
    if s.mode != Mobile then s
    else
      var s1 := HideCue(s, hasCue, scrollY > CueScrollOffset);
      s1.(wiring := s1.wiring.(scrollFramePending := true))
  }

  /** Scroll events coalesce: in mobile mode one event leaves a frame pending without touching
      the index or the tweens, and a second one before the frame runs can at most dismiss the cue. */
  lemma MobileScrollCoalesces(s: Snapshot, hasCue: bool, y1: int, y2: int)
    requires s.mode == Mobile
    ensures var r := MobileScrollEffect(s, hasCue, y1);
      r.wiring.scrollFramePending && r.index == s.index && r.tweens == s.tweens
    ensures var r1 := MobileScrollEffect(s, hasCue, y1);
      MobileScrollEffect(r1, hasCue, y2) == HideCue(r1, hasCue, y2 > CueScrollOffset)
  {
    var r1 := MobileScrollEffect(s, hasCue, y1);
    assert r1.wiring.scrollFramePending;
  }

  /** The scheduled scroll frame clears the pending flag before synchronising the index. */
  function TakeScrollFrame(s: Snapshot): Snapshot
  {
    s.(wiring := s.wiring.(scrollFramePending := false))
  }

  /** `enableMobileMode` on the scalar state: native-scroll mode with the tween flag cleared, the
      track's inline height and translation removed, the observers attached afresh, and the index
      synchronised to the slide nearest the probe. Tweens already in flight keep running. */
  function EnterMobile(s: Snapshot, n: nat, hasCue: bool, hasObserverApi: bool,
                       vp: int, tops: seq<int>, scrollY: int): Snapshot
  {
    SetIndexEffect(MobileBase(s, hasObserverApi, vp), n, hasCue, Nearest(tops, Probe(scrollY, vp)))
  }

  /** The part of `enableMobileMode` before the index is synchronised. */
  function MobileBase(s: Snapshot, hasObserverApi: bool, vp: int): Snapshot
  {
    s.(mode := Mobile, isAnimating := false,
       viewport := s.viewport.(mobileViewportH := vp),
       dom := s.dom.(nativeMobile := true, trackHeight := None, trackOffset := None),
       wiring := Wiring(hasObserverApi, true, false))
  }

  /** Entering mobile mode lands on the slide nearest the probe (a valid index), with the flag
      cleared and the track's inline geometry removed, and keeps the tweens, the timestamp and the
      wheel accumulator. */
  lemma EnterMobileSpec(s: Snapshot, n: nat, hasCue: bool, hasObserverApi: bool,
                        vp: int, tops: seq<int>, scrollY: int)
    requires |tops| == n
    ensures var r := EnterMobile(s, n, hasCue, hasObserverApi, vp, tops, scrollY);
      r.mode == Mobile && !r.isAnimating && r.dom.nativeMobile && r.viewport.mobileViewportH == vp &&
      r.dom.trackHeight.None? && r.dom.trackOffset.None? &&
      r.wiring == Wiring(hasObserverApi, true, false) &&
      IndexOk(n, r.index) && r.index == Nearest(tops, Probe(scrollY, vp)) &&
      r.tweens == s.tweens && r.lastNavAt == s.lastNavAt && r.wheelAccum == s.wheelAccum
  {
    SetIndexSpec(MobileBase(s, hasObserverApi, vp), n, hasCue, Nearest(tops, Probe(scrollY, vp)));
  }

  /** `enableDesktopMode` on the scalar state: paginated mode with the observers detached, the
      mobile height cache cleared, the index set to the clamped nearest slide (probed with the
      full viewport height), the track sized to n viewports and translated so that the current
      slide fills the viewport. */
  function EnterDesktop(s: Snapshot, n: nat, vp: int, tops: seq<int>, scrollY: int): Snapshot
  {
    DesktopLayout(DesktopBase(s, n, vp, tops, scrollY), n, vp)
  }

  /** The part of `enableDesktopMode` before the track is laid out. */
  function DesktopBase(s: Snapshot, n: nat, vp: int, tops: seq<int>, scrollY: int): Snapshot
  {
    s.(mode := Desktop, index := ClampIndex(n, Nearest(tops, Probe(scrollY, vp))),
       viewport := s.viewport.(mobileViewportH := 0),
       dom := s.dom.(nativeMobile := false),
       wiring := Wiring(false, false, false))
  }

  /** Entering desktop mode lands on the nearest slide clamped into range, detaches the mobile
      observers, sizes the track to n viewports translated to the current slide, and keeps the
      tween flag, the tweens and the cue. */
  lemma EnterDesktopSpec(s: Snapshot, n: nat, vp: int, tops: seq<int>, scrollY: int)
    requires |tops| == n
    ensures var r := EnterDesktop(s, n, vp, tops, scrollY);
      r.mode == Desktop && !r.dom.nativeMobile && r.viewport.mobileViewportH == 0 &&
      r.wiring == Wiring(false, false, false) &&
      r.index == ClampIndex(n, Nearest(tops, Probe(scrollY, vp))) &&
      (n > 0 ==> 0 <= r.index < n) &&
      r.dom.trackHeight == Some(n * vp) && r.dom.trackOffset == Some(-r.index * vp) &&
      r.isAnimating == s.isAnimating && r.tweens == s.tweens && r.cueDismissed == s.cueDismissed
  {
  }

  /** `applyMode(force)`, given the media query's answer: the derived mode is entered when forced
      or when it differs from the current one. */
  function ApplyModeEffect(s: Snapshot, force: bool, mobileQuery: bool, n: nat, hasCue: bool,
                           hasObserverApi: bool, vp: int, tops: seq<int>, scrollY: int): Snapshot
  {
    var next := if mobileQuery then Mobile else Desktop;
    if !force && next == s.mode then s
    else if mobileQuery then EnterMobile(s, n, hasCue, hasObserverApi, vp, tops, scrollY)
    else EnterDesktop(s, n, vp, tops, scrollY)
  }

  /** After `applyMode` the mode is the one the media query asks for, whether or not it was forced. */
  lemma ApplyModeFollowsQuery(s: Snapshot, force: bool, mobileQuery: bool, n: nat, hasCue: bool,
                              hasObserverApi: bool, vp: int, tops: seq<int>, scrollY: int)
    requires |tops| == n
    ensures ApplyModeEffect(s, force, mobileQuery, n, hasCue, hasObserverApi, vp, tops, scrollY).mode ==
      if mobileQuery then Mobile else Desktop
  {
    if mobileQuery && (force || s.mode != Mobile) {
      EnterMobileSpec(s, n, hasCue, hasObserverApi, vp, tops, scrollY);
    }
  }

  /** `activeViewportHeight`: the height cached on entering mobile mode, when there is one, or
      else the viewport's own. */
  function ActiveHeight(s: Snapshot, vp: int): (h: int)
    ensures s.mode == Desktop ==> h == vp
    ensures s.mode == Mobile && s.viewport.mobileViewportH > 0 ==> h == s.viewport.mobileViewportH
    ensures h == vp || (s.mode == Mobile && h == s.viewport.mobileViewportH > 0)
  {
    if s.mode == Mobile && s.viewport.mobileViewportH > 0 then s.viewport.mobileViewportH else vp
  }

  /** In mobile mode only: a width change under 2 pixels and a height change under 120 pixels
      (the browser bars showing or hiding). */
  predicate BarsOnly(s: Snapshot, nextW: int, nextH: int)
  {
    s.mode == Mobile && Abs(nextW - s.viewport.lastViewportW) < WidthEps &&
    Abs(nextH - s.viewport.lastViewportH) < MobileBarResizeEps
  }

  /** The resize frame, given the new inner width and height, the viewport height, the media
      query's answer, the slide tops and the scroll position. A bars-only change records the new
      size and stops; otherwise the size is recorded (and, in mobile mode, the cached height
      refreshed), the mode re-applied, and then the desktop track laid out again (unless a tween
      runs) or the mobile index re-synchronised. */
  function ResizeEffect(s: Snapshot, n: nat, hasCue: bool, hasObserverApi: bool, nextW: int,
                        nextH: int, vp: int, mobileQuery: bool, tops: seq<int>, scrollY: int): (r: Snapshot)
    ensures r.viewport.lastViewportW == nextW && r.viewport.lastViewportH == nextH
    ensures r.tweens == s.tweens
  {
    if BarsOnly(s, nextW, nextH) then
      s.(viewport := s.viewport.(lastViewportW := nextW, lastViewportH := nextH))
    else
      var s1 := s.(viewport := Viewport(nextW, nextH,
                                        if s.mode == Mobile then vp else s.viewport.mobileViewportH));
      var s2 := ApplyModeEffect(s1, false, mobileQuery, n, hasCue, hasObserverApi, vp, tops, scrollY);
      Reflow(s2, n, hasCue, vp, tops, scrollY)
  }

  /** The end of a resize frame after `applyMode`: an idle desktop track is laid out again for the
      new height, a mobile index is synchronised, and a running tween is left alone. */
  function Reflow(s: Snapshot, n: nat, hasCue: bool, vp: int, tops: seq<int>, scrollY: int): Snapshot
  {
    if s.mode == Desktop && !s.isAnimating then DesktopLayout(s, n, vp)
    else if s.mode == Mobile then
      SetIndexEffect(s, n, hasCue, Nearest(tops, Probe(scrollY, ActiveHeight(s, vp))))
    else s
  }

  /** A bars-only resize changes nothing but the remembered size: no re-layout, no index change. */
  lemma ResizeBarsOnlyRecords(s: Snapshot, n: nat, hasCue: bool, hasObserverApi: bool, nextW: int,
                              nextH: int, vp: int, mobileQuery: bool, tops: seq<int>, scrollY: int)
    requires BarsOnly(s, nextW, nextH)
    ensures var r := ResizeEffect(s, n, hasCue, hasObserverApi, nextW, nextH, vp, mobileQuery, tops, scrollY);
      r.(viewport := s.viewport) == s &&
      r.viewport == s.viewport.(lastViewportW := nextW, lastViewportH := nextH)
  {
  }

  /** Any other resize records the size and leaves the navigator in the mode the media query
      asks for: in mobile mode with the fresh height cached and the index on the slide nearest
      the probe, in desktop mode (with no tween running) with the track laid out for the new
      height around the current slide. */
  lemma ResizeFollowsQuery(s: Snapshot, n: nat, hasCue: bool, hasObserverApi: bool, nextW: int,
                           nextH: int, vp: int, mobileQuery: bool, tops: seq<int>, scrollY: int)
    requires |tops| == n && !BarsOnly(s, nextW, nextH)
    ensures var r := ResizeEffect(s, n, hasCue, hasObserverApi, nextW, nextH, vp, mobileQuery, tops, scrollY);
      r.viewport.lastViewportW == nextW && r.viewport.lastViewportH == nextH &&
      r.mode == (if mobileQuery then Mobile else Desktop) &&
      (r.mode == Mobile ==> r.viewport.mobileViewportH == vp && r.index == Nearest(tops, Probe(scrollY, vp))) &&
      (r.mode == Desktop && !r.isAnimating ==>
        r.dom.trackHeight == Some(n * vp) && r.dom.trackOffset == Some(-r.index * vp))
  {
    var s1 := s.(viewport := Viewport(nextW, nextH,
                                      if s.mode == Mobile then vp else s.viewport.mobileViewportH));
    var s2 := ApplyModeEffect(s1, false, mobileQuery, n, hasCue, hasObserverApi, vp, tops, scrollY);
    ApplyModeFollowsQuery(s1, false, mobileQuery, n, hasCue, hasObserverApi, vp, tops, scrollY);
    if mobileQuery {
      if s1.mode != Mobile {
        EnterMobileSpec(s1, n, hasCue, hasObserverApi, vp, tops, scrollY);
      }
      assert s2.viewport.mobileViewportH == vp && s2.viewport.lastViewportW == nextW && s2.viewport.lastViewportH == nextH;
      SetIndexSpec(s2, n, hasCue, Nearest(tops, Probe(scrollY, ActiveHeight(s2, vp))));
      assert ActiveHeight(s2, vp) == vp;
      if n > 0 {
        assert Nearest(tops, Probe(scrollY, vp)) < n;
      }
    } else if s1.mode != Desktop {
      EnterDesktopSpec(s1, n, vp, tops, scrollY);
    }
  }

  /** The one-time part of `finalizeIntro`: the dots are built (where the page has a container),
      the menu trigger armed (where the page has one) and the page unlocked. */
  function IntroDone(s: Snapshot, hasDots: bool, hasBurger: bool): Snapshot
  {
    s.(introApplied := true,
       dom := s.dom.(dotsBuilt := s.dom.dotsBuilt || hasDots,
                     burgerArmed := s.dom.burgerArmed || hasBurger, unlocked := true))
  }

  /** `finalizeIntro`: on the first call, the one-time part and a forced `applyMode`; afterwards
      nothing. */
  function FinalizeIntroEffect(s: Snapshot, mobileQuery: bool, n: nat, hasCue: bool, hasDots: bool,
                               hasBurger: bool, hasObserverApi: bool, vp: int, tops: seq<int>,
                               scrollY: int): Snapshot
  {
    if s.introApplied then s
    else ApplyModeEffect(IntroDone(s, hasDots, hasBurger), true, mobileQuery, n, hasCue,
                         hasObserverApi, vp, tops, scrollY)
  }

  /** The animation-end event and the fallback timer both call `finalizeIntro`: the first call
      applies the intro and whichever comes second changes nothing. */
  lemma FinalizeIntroOnce(s: Snapshot, mobileQuery: bool, n: nat, hasCue: bool, hasDots: bool,
                          hasBurger: bool, hasObserverApi: bool, vp: int, tops: seq<int>,
                          scrollY: int, mobileQuery2: bool, vp2: int, tops2: seq<int>, scrollY2: int)
    requires |tops| == n
    ensures var once := FinalizeIntroEffect(s, mobileQuery, n, hasCue, hasDots, hasBurger,
                                            hasObserverApi, vp, tops, scrollY);
      once.introApplied &&
      FinalizeIntroEffect(once, mobileQuery2, n, hasCue, hasDots, hasBurger, hasObserverApi,
                          vp2, tops2, scrollY2) == once
  {
    if !s.introApplied {
      var d := IntroDone(s, hasDots, hasBurger);
      if mobileQuery {
        SetIndexSpec(MobileBase(d, hasObserverApi, vp), n, hasCue, Nearest(tops, Probe(scrollY, vp)));
      }
    }
  }
}
