/** The slide navigator of script.js as one object. Its fields are the closure variables of the
    script; the per-slide `is-visible` classes, the per-button `aria-current` attributes and the
    per-slide inline positioning are arrays updated in place. Browser inputs (the clock, viewport
    sizes, the media query, slide tops, scroll position, event deltas) are parameters. */
module Controller {
  import opened Slides
  import opened NavState

  /** The inline positioning of one slide: none (native flow) or absolute at a top offset. */
  datatype SlideStyle = Flow | Absolute(top: int)

  /** `revealSection(i)` on the visibility flags: slide i gets `is-visible` if it exists and
      carries `reveal`; nothing else changes. */
  function RevealAt(hasReveal: seq<bool>, visible: seq<bool>, i: int): (r: seq<bool>)
    requires |hasReveal| == |visible|
    ensures |r| == |visible|
    ensures forall j :: 0 <= j < |r| ==> (r[j] <==> visible[j] || (j == i && hasReveal[j]))
  {
    if 0 <= i < |visible| && hasReveal[i] then visible[i := true] else visible
  }

  /** The visibility flags after a batch of intersection entries, applied in order: every
      intersecting entry reveals its slide. */
  function MarkIntersecting(hasReveal: seq<bool>, visible: seq<bool>, entries: seq<Entry>): (r: seq<bool>)
    requires |hasReveal| == |visible|
    ensures |r| == |visible|
    decreases |entries|
  {
    if |entries| == 0 then visible
    else
      var e := entries[|entries| - 1];
      var before := MarkIntersecting(hasReveal, visible, entries[..|entries| - 1]);
      if e.isIntersecting then RevealAt(hasReveal, before, e.target) else before
  }

  /** A batch only adds `is-visible`, and adds it to exactly the `reveal` slides that some entry
      of the batch reports as intersecting. */
  lemma {:induction false} MarkIntersectingSpec(hasReveal: seq<bool>, visible: seq<bool>, entries: seq<Entry>)
    requires |hasReveal| == |visible|
    ensures forall j :: 0 <= j < |visible| ==>
      (MarkIntersecting(hasReveal, visible, entries)[j] <==>
        visible[j] || (hasReveal[j] && exists k :: 0 <= k < |entries| && entries[k].isIntersecting && entries[k].target == j))
  {
    if |entries| > 0 {
      var init := entries[..|entries| - 1];
      MarkIntersectingSpec(hasReveal, visible, init);
      assert forall k :: 0 <= k < |init| ==> init[k] == entries[k];
      forall j | 0 <= j < |visible|
        ensures MarkIntersecting(hasReveal, visible, entries)[j] <==>
          visible[j] || (hasReveal[j] && exists k :: 0 <= k < |entries| && entries[k].isIntersecting && entries[k].target == j)
      {
        if hasReveal[j] && (exists k :: 0 <= k < |entries| && entries[k].isIntersecting && entries[k].target == j) {
          var k :| 0 <= k < |entries| && entries[k].isIntersecting && entries[k].target == j;
          if k < |init| {
            assert init[k].isIntersecting && init[k].target == j;
          }
        }
      }
    }
  }

  class Navigator {
    /** Which slides carry the `reveal` class; fixed when the page loads. */
    const hasReveal: seq<bool>
    /** The number of slides. */
    const n: nat
    /** Whether the page has the scroll cue, the dot container, the menu trigger, and whether the
        browser offers IntersectionObserver. */
    const hasCue: bool
    const hasDots: bool
    const hasBurger: bool
    const hasObserverApi: bool
    /** The `is-visible` class of each slide. */
    const visible: array<bool>
    /** The `aria-current` attribute of each dot button (meaningful once the buttons exist). */
    const dots: array<bool>
    /** The inline positioning of each slide. */
    const styles: array<SlideStyle>
    /** The closure variables of the script (the index, the mode, the tween flag, the touch start,
        the wheel accumulator, the cooldown timestamp, the intro and cue latches, the remembered
        viewport sizes), the page state it writes outside the per-slide arrays, and the tweens
        whose frame loops are still running. */
    var st: Snapshot

    ghost predicate Shape()
    {
      n == |hasReveal| && visible.Length == n && dots.Length == n && styles.Length == n && visible != dots
    }

    /** Everything the navigator keeps true between events, except the dot attributes. */
    ghost predicate Core()
      reads this, visible, styles
    {
      Shape() &&
      IndexOk(n, st.index) &&
      (forall j :: 0 <= j < |st.tweens| ==> TweenOk(n, st.tweens[j])) &&
      (st.isAnimating ==> st.mode == Desktop && st.tweens != []) &&
      st.wiring.scrollListening == (st.mode == Mobile) &&
      st.wiring.observerAttached == (st.wiring.scrollListening && hasObserverApi) &&
      (st.wiring.scrollFramePending ==> st.wiring.scrollListening) &&
      (st.cueDismissed ==> hasCue) &&
      (st.dom.dotsBuilt ==> hasDots) &&
      (forall i :: 0 <= i < n ==> visible[i] ==> hasReveal[i]) &&
      (st.mode == Mobile ==> forall i :: 0 <= i < n ==> hasReveal[i] ==> visible[i]) &&
      (st.mode == Mobile ==> forall i :: 0 <= i < n ==> styles[i] == Flow)
    }

    /** Once the buttons exist, exactly the button of the current slide is `aria-current`. */
    ghost predicate DotsCurrent()
      reads this, dots
    {
      st.dom.dotsBuilt ==> forall i :: 0 <= i < dots.Length ==> dots[i] == (i == st.index)
    }

    ghost predicate Valid()
      reads this, visible, dots, styles
    {
      Core() && DotsCurrent()
    }

    /** The track and the slides are laid out for paginated mode with viewport height `h`. */
    ghost predicate DesktopLaidOut(h: int)
      reads this, styles
    {
      Shape() && st.dom.trackHeight == Some(n * h) && st.dom.trackOffset == Some(-st.index * h) &&
      forall i :: 0 <= i < n ==> styles[i] == Absolute(i * h)
    }

    /** The state of the closure when the script starts: desktop mode, slide 0, nothing laid out. */
    constructor (hasReveal: seq<bool>, hasCue: bool, hasDots: bool, hasBurger: bool,
                 hasObserverApi: bool, innerW: int, innerH: int)
      ensures Valid()
      ensures this.hasReveal == hasReveal && n == |hasReveal|
      ensures this.hasCue == hasCue && this.hasDots == hasDots
      ensures this.hasBurger == hasBurger && this.hasObserverApi == hasObserverApi
      ensures st == Snapshot(0, Desktop, false, None, 0, 0, false, false, Viewport(innerW, innerH, 0),
                                 Dom(None, None, false, false, false, false), Wiring(false, false, false), [])
      ensures forall i :: 0 <= i < n ==> !visible[i] && styles[i] == Flow
      ensures fresh(visible) && fresh(dots) && fresh(styles)
    {
      this.hasReveal := hasReveal;
      n := |hasReveal|;
      this.hasCue := hasCue;
      this.hasDots := hasDots;
      this.hasBurger := hasBurger;
      this.hasObserverApi := hasObserverApi;
      visible := new bool[|hasReveal|](_ => false);
      dots := new bool[|hasReveal|](_ => false);
      styles := new SlideStyle[|hasReveal|](_ => Flow);
      st := Snapshot(0, Desktop, false, None, 0, 0, false, false, Viewport(innerW, innerH, 0),
                     Dom(None, None, false, false, false, false), Wiring(false, false, false), []);
    }


    /** `hideScrollCue`: a latch that is set on the first call (if the page has a cue). */
    method HideScrollCue()
      requires Valid()
      modifies this`st
      ensures Valid()
      ensures st == HideCue(old(st), hasCue, true)
    {
      if !hasCue || st.cueDismissed {
        return;
      }
      st := st.(cueDismissed := true);
    }

    /** `revealSection(i)`. */
    method RevealSection(i: int)
      requires Core()
      modifies visible
      ensures Core()
      ensures visible[..] == RevealAt(hasReveal, old(visible[..]), i)
    {
      if 0 <= i < n && hasReveal[i] {
        visible[i] := true;
      }
    }

    /** `updateDots`: every existing button gets `aria-current` true exactly when it is the
        current slide's. */
    method UpdateDots()
      requires Core()
      modifies dots
      ensures Valid()
      ensures st.dom.dotsBuilt ==> forall i :: 0 <= i < n ==> (dots[i] <==> i == st.index)
    {
      if !hasDots {
        return;
      }
      var count := if st.dom.dotsBuilt then n else 0;
      var i := 0;
      while i < count
        invariant 0 <= i <= count
        invariant forall j :: 0 <= j < i ==> dots[j] == (j == st.index)
      {
        dots[i] := i == st.index;
        i := i + 1;
      }
    }

    /** `setIndex(next)`: clamps, and on a change reveals the new slide, refreshes the dots and
        dismisses the cue past the first slide. */
    method SetIndex(next: int)
      requires Valid()
      modifies this`st, visible, dots
      ensures Valid()
      ensures st == SetIndexEffect(old(st), n, hasCue, next)
      ensures visible[..] ==
        if st.index == old(st.index) then old(visible[..]) else RevealAt(hasReveal, old(visible[..]), st.index)
    {
      var clamped := ClampIndex(n, next);
      if clamped == st.index {
        return;
      }
      st := st.(index := clamped);
      RevealSection(st.index);
      UpdateDots();
      if st.index > 0 {
        HideScrollCue();
      }
    }

    /** `layoutDesktop` with viewport height `h`: the track is n viewports tall, slide i sits at
        i viewports, and the track is translated so that the current slide fills the viewport. */
    method LayoutDesktop(h: int)
      requires Core() && st.mode == Desktop
      modifies this`st, styles
      ensures Core() && (old(DotsCurrent()) ==> DotsCurrent())
      ensures st == DesktopLayout(old(st), n, h)
      ensures DesktopLaidOut(h)
      ensures 0 <= st.index < n ==> st.dom.trackOffset.value + styles[st.index].top == 0
    {
      st := st.(dom := st.dom.(trackHeight := Some(n * h)));
      var i := 0;
      while i < n
        invariant 0 <= i <= n
        invariant forall j :: 0 <= j < i ==> styles[j] == Absolute(j * h)
        modifies styles
      {
        styles[i] := Absolute(i * h);
        i := i + 1;
      }
      st := st.(dom := st.dom.(trackOffset := Some(-st.index * h)));
    }

    /** The start phase of `tweenTo(target)` with viewport height `height`. `thenResetCooldown`
        says whether the caller chains the cooldown reset onto the returned promise (as `go` does). */
    method TweenTo(target: int, height: int, thenResetCooldown: bool) returns (started: bool)
      requires Valid() && IndexOk(n, target)
      requires thenResetCooldown ==> Abs(target - st.index) == 1
      modifies this`st
      ensures Valid()
      ensures started <==> old(st.mode) == Desktop && !old(st.isAnimating)
      ensures st == StartTween(old(st), target, height, thenResetCooldown)
    {
      if st.mode != Desktop || st.isAnimating {
        return false;
      }
      st := st.(isAnimating := true, tweens := st.tweens + [Tween(st.index, target, height, thenResetCooldown)]);
      started := true;
    }

    /** The completion phase of the k-th running tween, at time `now`: the last frame leaves the
        track at the target's offset, the index becomes the target, the flag is cleared, the target
        is revealed and the dots refreshed; a tween started by `go` then resets the cooldown. */
    method CompleteTween(k: nat, now: int)
      requires Valid() && k < |st.tweens|
      modifies this`st, visible, dots
      ensures Valid()
      ensures st == FinishTween(old(st), k, now)
      ensures visible[..] == RevealAt(hasReveal, old(visible[..]), st.index)
      ensures old(st.tweens[k]).resetsCooldown && old(st.index) == old(st.tweens[k]).from ==>
        Abs(st.index - old(st.index)) == 1
    {
      var t := st.tweens[k];
      LastFrame(k);
      RevealSection(st.index);
      UpdateDots();
      // The promise returned to `go` resolves.
      if t.resetsCooldown {
        st := st.(lastNavAt := now);
      }
    }

    /** The last frame of the k-th running tween: the track rests at the target, the index becomes
        the target, the flag is cleared and the frame loop ends; the timestamp is left as it is. */
    method LastFrame(k: nat)
      requires Valid() && k < |st.tweens|
      modifies this`st
      ensures Core()
      ensures st == FinishTween(old(st), k, old(st.lastNavAt))
    {
      var t := st.tweens[k];
      var rest := st.tweens[..k] + st.tweens[k + 1..];
      assert forall j :: 0 <= j < |rest| ==> rest[j] == st.tweens[if j < k then j else j + 1];
      st := st.(dom := st.dom.(trackOffset := Some(-t.target * t.height)), tweens := rest);
      st := st.(index := t.target, isAnimating := false);
    }

    /** `go(delta)` at time `now`: dropped unless the navigator is ready and the clamped target is
        another slide; otherwise the timestamp is set and a tween to the neighbour starts. */
    method Go(delta: int, now: int, height: int)
      requires Valid() && (delta == 1 || delta == -1)
      modifies this`st
      ensures Valid()
      ensures st == GoEffect(old(st), n, delta, now, height)
    {
      if st.mode != Desktop {
        return;
      }
      if st.isAnimating || now - st.lastNavAt < NavCooldown {
        return;
      }
      var next := ClampIndex(n, st.index + delta);
      if next == st.index {
        return;
      }
      st := st.(lastNavAt := now);
      var started := TweenTo(next, height, true);
    }

    /** `onWheel` with vertical delta `deltaY` at time `now`. */
    method OnWheel(deltaY: int, now: int, height: int)
      requires Valid()
      modifies this`st
      ensures Valid()
      ensures st == WheelEffect(old(st), n, hasCue, deltaY, now, height)
    {
      if st.mode != Desktop {
        return;
      }
      if Abs(deltaY) > WheelCueThreshold {
        HideScrollCue();
      }
      if st.isAnimating || now - st.lastNavAt < NavCooldown {
        return;
      }
      Accumulate(deltaY, now, height);
    }

    /** The tail of `onWheel` once the guard has passed: the delta joins the accumulator, and a
        sum that reaches the threshold empties it and calls `go` in its direction. */
    method Accumulate(deltaY: int, now: int, height: int)
      requires Valid() && st.mode == Desktop && !st.isAnimating && now - st.lastNavAt >= NavCooldown
      modifies this`st
      ensures Valid()
      ensures var step := WheelStep(old(st.wheelAccum), deltaY);
        st == if step.1 == 0 then old(st).(wheelAccum := step.0)
              else GoEffect(old(st).(wheelAccum := 0), n, step.1, now, height)
    {
      var step := WheelStep(st.wheelAccum, deltaY);
      if step.1 == 0 {
        st := st.(wheelAccum := step.0);
        return;
      }
      st := st.(wheelAccum := 0);
      Go(step.1, now, height);
    }

    /** `onTouchStart`, given the vertical positions of the current touches. */
    method OnTouchStart(touches: seq<int>)
      requires Valid()
      modifies this`st
      ensures Valid()
      ensures st == TouchStartEffect(old(st), touches)
    {
      if st.mode != Desktop {
        return;
      }
      if |touches| > 0 {
        st := st.(startTouchY := Some(touches[0]));
      }
    }

    /** `onTouchMove`, given the vertical position of the first touch; `prevented` reports the
        call to `preventDefault`. */
    method OnTouchMove(clientY: int, now: int, height: int) returns (prevented: bool)
      requires Valid()
      modifies this`st
      ensures Valid()
      ensures (st, prevented) == TouchMoveEffect(old(st), n, hasCue, clientY, now, height)
    {
      prevented := false;
      if st.mode != Desktop {
        return;
      }
      if st.startTouchY.None? || st.isAnimating {
        return;
      }
      var dy := st.startTouchY.value - clientY;
      if Abs(dy) > TouchCueThreshold {
        HideScrollCue();
      }
      if Abs(dy) <= TouchThreshold {
        return;
      }
      prevented := true;
      st := st.(startTouchY := None);
      Go(if dy > 0 then 1 else -1, now, height);
    }

    /** `onTouchEnd`. */
    method OnTouchEnd()
      requires Valid()
      modifies this`st
      ensures Valid()
      ensures st == TouchEndEffect(old(st))
    {
      st := st.(startTouchY := None);
    }

    /** `onKeyDown`; `prevented` reports the call to `preventDefault` and `scrollTo` the slide
        asked to scroll natively into view. */
    method OnKeyDown(key: Key, now: int, height: int) returns (prevented: bool, scrollTo: Option<nat>)
      requires Valid()
      modifies this`st
      ensures Valid()
      ensures KeyResult(st, prevented, scrollTo) == KeyEffect(old(st), n, hasCue, key, now, height)
    {
      prevented, scrollTo := false, None;
      if st.mode == Desktop {
        if IsForwardKey(key) {
          prevented := true;
          HideScrollCue();
          Go(1, now, height);
        } else if IsBackwardKey(key) {
          prevented := true;
          Go(-1, now, height);
        } else if key == Home {
          prevented := true;
          var started := TweenTo(0, height, false);
        } else if key == End {
          prevented := true;
          HideScrollCue();
          var started := TweenTo(n - 1, height, false);
        }
        return;
      }
      if key == Home {
        prevented := true;
        scrollTo := if n > 0 then Some(0) else None;
      } else if key == End {
        prevented := true;
        HideScrollCue();
        scrollTo := if n > 0 then Some(n - 1) else None;
      }
    }

    /** A click on the dot of slide i: a native scroll in mobile mode, a tween when idle in
        desktop mode. */
    method OnDotClick(i: nat, height: int) returns (scrollTo: Option<nat>)
      requires Valid() && st.dom.dotsBuilt && i < n
      modifies this`st
      ensures Valid()
      ensures old(st.mode) == Mobile ==> scrollTo == Some(i) && st == old(st)
      ensures old(st.mode) == Desktop ==> scrollTo == None && st == StartTween(old(st), i, height, false)
    {
      if st.mode == Mobile {
        return Some(i);
      }
      scrollTo := None;
      if !st.isAnimating {
        var started := TweenTo(i, height, false);
      }
    }

    /** `cleanupMobileObservers`: disconnects the section observer, removes the scroll listener
        and cancels a pending scroll frame. */
    method CleanupMobileObservers()
      modifies this`st
      ensures st == old(st).(wiring := Wiring(false, false, false))
    {
      st := st.(wiring := Wiring(false, false, false));
    }

    /** `setupMobileObservers`: a fresh section observer where the browser has one, and the
        scroll listener. */
    method SetupMobileObservers()
      modifies this`st
      ensures st == old(st).(wiring := Wiring(hasObserverApi, true, false))
    {
      CleanupMobileObservers();
      st := st.(wiring := st.wiring.(observerAttached := hasObserverApi, scrollListening := true));
    }

    /** `syncMobileIndex`, given the slide tops and the scroll position (pixels) and the viewport
        height: the index moves to the slide nearest the probe, which is revealed. */
    method SyncMobileIndex(tops: seq<int>, scrollY: int, vp: int)
      requires Valid() && |tops| == n
      modifies this`st, visible, dots
      ensures Valid()
      ensures st ==
        SetIndexEffect(old(st), n, hasCue, Nearest(tops, Probe(scrollY, ActiveHeight(old(st), vp))))
      ensures visible[..] == RevealAt(hasReveal, old(visible[..]), st.index)
    {
      var h := if st.mode == Mobile && st.viewport.mobileViewportH > 0 then st.viewport.mobileViewportH else vp;
      var next := NearestMobileIndex(tops, Probe(scrollY, h));
      if next != st.index {
        SetIndex(next);
      } else {
        RevealSection(st.index);
      }
    }

    /** `onMobileScroll` at scroll position `scrollY`: dismisses the cue past 20 pixels and
        schedules one frame, coalescing requests while a frame is pending. */
    method OnMobileScroll(scrollY: int)
      requires Valid()
      modifies this`st
      ensures Valid()
      ensures st == MobileScrollEffect(old(st), hasCue, scrollY)
    {
      if st.mode != Mobile {
        return;
      }
      if scrollY > CueScrollOffset {
        HideScrollCue();
      }
      if st.wiring.scrollFramePending {
        return;
      }
      st := st.(wiring := st.wiring.(scrollFramePending := true));
    }

    /** The scheduled scroll frame: clears the pending flag and synchronises the index. */
    method MobileScrollFrame(tops: seq<int>, scrollY: int, vp: int)
      requires Valid() && st.wiring.scrollFramePending && |tops| == n
      modifies this`st, visible, dots
      ensures Valid()
      ensures var next := Nearest(tops, Probe(scrollY, ActiveHeight(old(st), vp)));
        st == SetIndexEffect(TakeScrollFrame(old(st)), n, hasCue, next) &&
        visible[..] == RevealAt(hasReveal, old(visible[..]), next)
    {
      st := st.(wiring := st.wiring.(scrollFramePending := false));
      SyncMobileIndex(tops, scrollY, vp);
    }

    /** The section observer's callback on a batch of entries: every intersecting `reveal` slide
        is revealed, and the last entry intersecting by at least 0.45 that is a slide becomes the
        current slide. */
    method OnIntersect(entries: seq<Entry>)
      requires Valid() && st.wiring.observerAttached
      modifies this`st, visible, dots
      ensures Valid()
      ensures var c := LastCandidate(entries);
        var marked := MarkIntersecting(hasReveal, old(visible[..]), entries);
        if c.Some? && 0 <= c.value < n && c.value != old(st.index) then
          st == SetIndexEffect(old(st), n, hasCue, c.value) &&
          visible[..] == RevealAt(hasReveal, marked, c.value)
        else
          st == old(st) && visible[..] == marked
    {
      var candidate: Option<int> := None;
      var k := 0;
      while k < |entries|
        invariant 0 <= k <= |entries|
        invariant candidate == LastCandidate(entries[..k])
        invariant visible[..] == MarkIntersecting(hasReveal, old(visible[..]), entries[..k])
        invariant Valid()
        modifies visible
      {
        var e := entries[k];
        assert entries[..k + 1][..k] == entries[..k];
        if Qualifies(e) {
          candidate := Some(e.target);
        }
        if e.isIntersecting && 0 <= e.target < n && hasReveal[e.target] {
          visible[e.target] := true;
        }
        k := k + 1;
      }
      assert entries[..|entries|] == entries;
      if candidate.Some? {
        var next := candidate.value;
        if 0 <= next < n {
          SetIndex(next);
        }
      }
    }

    /** `enableMobileMode`, given the viewport height, the slide tops after the inline positioning
        is cleared, and the scroll position: native scrolling, every `reveal` slide visible, the
        observers attached afresh and the index synchronised to the slide nearest the probe. */
    method EnableMobileMode(vp: int, tops: seq<int>, scrollY: int)
      requires Valid() && |tops| == n
      modifies this`st, visible, dots, styles
      ensures Valid()
      ensures st == EnterMobile(old(st), n, hasCue, hasObserverApi, vp, tops, scrollY)
      ensures forall i :: 0 <= i < n ==> styles[i] == Flow
      ensures forall i :: 0 <= i < n ==> (visible[i] <==> old(visible[i]) || hasReveal[i])
    {
      ghost var s0 := st;
      st := st.(mode := Mobile, isAnimating := false,
                dom := st.dom.(nativeMobile := true, trackHeight := None, trackOffset := None),
                viewport := st.viewport.(mobileViewportH := vp));
      var i := 0;
      while i < n
        invariant 0 <= i <= n
        invariant forall j :: 0 <= j < i ==> styles[j] == Flow
        invariant forall j :: 0 <= j < n ==> (visible[j] <==> old(visible[j]) || (j < i && hasReveal[j]))
        modifies styles, visible
      {
        styles[i] := Flow;
        if hasReveal[i] {
          visible[i] := true;
        }
        i := i + 1;
      }
      SetupMobileObservers();
      assert st == MobileBase(s0, hasObserverApi, vp);
      assert ActiveHeight(st, vp) == vp;
      SyncMobileIndex(tops, scrollY, vp);
    }

    /** `enableDesktopMode`, given the viewport height, the slide tops and the scroll position
        before the page is scrolled back to the top: paginated mode, the observers detached, the
        index set to the clamped nearest slide and the track laid out around it. */
    method EnableDesktopMode(vp: int, tops: seq<int>, scrollY: int)
      requires Valid() && |tops| == n
      modifies this`st, visible, dots, styles
      ensures Valid()
      ensures st == EnterDesktop(old(st), n, vp, tops, scrollY)
      ensures DesktopLaidOut(vp)
      ensures visible[..] == RevealAt(hasReveal, old(visible[..]), st.index)
    {
      ghost var s0 := st;
      st := st.(mode := Desktop, dom := st.dom.(nativeMobile := false));
      CleanupMobileObservers();
      st := st.(viewport := st.viewport.(mobileViewportH := 0));
      var nearest := NearestMobileIndex(tops, Probe(scrollY, vp));
      st := st.(index := ClampIndex(n, nearest));
      assert st == DesktopBase(s0, n, vp, tops, scrollY);
      LayoutDesktop(vp);
      RevealSection(st.index);
      UpdateDots();
    }

    /** `applyMode(force)`, given the media-query answer: enters the derived mode when forced or
        when it differs from the current one, and otherwise changes nothing. */
    method ApplyMode(force: bool, mobileQuery: bool, vp: int, tops: seq<int>, scrollY: int)
      requires Valid() && |tops| == n
      modifies this`st, visible, dots, styles
      ensures Valid()
      ensures st == ApplyModeEffect(old(st), force, mobileQuery, n, hasCue, hasObserverApi, vp, tops, scrollY)
      ensures st.mode == (if mobileQuery then Mobile else Desktop)
      ensures st.isAnimating == (old(st.isAnimating) && !mobileQuery)
      ensures !force && (mobileQuery <==> old(st.mode) == Mobile) ==>
        visible[..] == old(visible[..]) && styles[..] == old(styles[..])
      ensures (force || (mobileQuery <==> old(st.mode) == Desktop)) && mobileQuery ==>
        (forall i :: 0 <= i < n ==> styles[i] == Flow) &&
        (forall i :: 0 <= i < n ==> (visible[i] <==> old(visible[i]) || hasReveal[i]))
      ensures (force || (mobileQuery <==> old(st.mode) == Desktop)) && !mobileQuery ==>
        DesktopLaidOut(vp) && visible[..] == RevealAt(hasReveal, old(visible[..]), st.index)
    {
      var nextMode := if mobileQuery then Mobile else Desktop;
      if !force && nextMode == st.mode {
        return;
      }
      if nextMode == Mobile {
        EnableMobileMode(vp, tops, scrollY);
      } else {
        EnableDesktopMode(vp, tops, scrollY);
      }
    }

    /** The resize frame, given the new inner width and height, the viewport height, the
        media-query answer, the slide tops and the scroll position. In mobile mode a width change
        under 2 and a height change under 120 (the browser bars) only record the new size. */
    method OnResize(nextW: int, nextH: int, vp: int, mobileQuery: bool, tops: seq<int>, scrollY: int)
      requires Valid() && |tops| == n
      modifies this`st, visible, dots, styles
      ensures Valid()
      ensures st == ResizeEffect(old(st), n, hasCue, hasObserverApi, nextW, nextH, vp, mobileQuery, tops, scrollY)
      ensures BarsOnly(old(st), nextW, nextH) ==>
        visible[..] == old(visible[..]) && styles[..] == old(styles[..])
      ensures !BarsOnly(old(st), nextW, nextH) && st.mode == Mobile ==>
        (forall i :: 0 <= i < n ==> styles[i] == Flow) &&
        (forall i :: 0 <= i < n ==> (visible[i] <==> old(visible[i]) || hasReveal[i]))
      ensures !BarsOnly(old(st), nextW, nextH) && st.mode == Desktop ==>
        visible[..] ==
          if old(st.mode) == Desktop then old(visible[..]) else RevealAt(hasReveal, old(visible[..]), st.index)
      ensures !BarsOnly(old(st), nextW, nextH) && st.mode == Desktop && !st.isAnimating ==> DesktopLaidOut(vp)
      ensures !BarsOnly(old(st), nextW, nextH) && st.mode == Desktop && st.isAnimating ==>
        styles[..] == old(styles[..])
    {
      var widthDelta := Abs(nextW - st.viewport.lastViewportW);
      var heightDelta := Abs(nextH - st.viewport.lastViewportH);
      if st.mode == Mobile && widthDelta < WidthEps && heightDelta < MobileBarResizeEps {
        st := st.(viewport := st.viewport.(lastViewportW := nextW, lastViewportH := nextH));
        return;
      }
      // The new size is recorded and, in mobile mode, the fresh viewport height cached.
      var cached := if st.mode == Mobile then vp else st.viewport.mobileViewportH;
      st := st.(viewport := Viewport(nextW, nextH, cached));
      Refit(vp, mobileQuery, tops, scrollY);
    }

    /** The rest of a resize frame that is more than the browser bars: `applyMode(false)`, then the
        track laid out again or the index re-synchronised. */
    method Refit(vp: int, mobileQuery: bool, tops: seq<int>, scrollY: int)
      requires Valid() && |tops| == n
      modifies this`st, visible, dots, styles
      ensures Valid()
      ensures st == NavState.Reflow(ApplyModeEffect(old(st), false, mobileQuery, n, hasCue, hasObserverApi,
                                                    vp, tops, scrollY), n, hasCue, vp, tops, scrollY)
      ensures st.mode == Mobile ==>
        (forall i :: 0 <= i < n ==> styles[i] == Flow) &&
        (forall i :: 0 <= i < n ==> (visible[i] <==> old(visible[i]) || hasReveal[i]))
      ensures st.mode == Desktop ==>
        visible[..] ==
          if old(st.mode) == Desktop then old(visible[..]) else RevealAt(hasReveal, old(visible[..]), st.index)
      ensures st.mode == Desktop && !st.isAnimating ==> DesktopLaidOut(vp)
      ensures st.mode == Desktop && st.isAnimating ==> styles[..] == old(styles[..])
    {
      ApplyMode(false, mobileQuery, vp, tops, scrollY);
      Reflow(vp, tops, scrollY);
    }

    /** The end of the resize frame, after `applyMode`. */
    method Reflow(vp: int, tops: seq<int>, scrollY: int)
      requires Valid() && |tops| == n
      modifies this`st, visible, dots, styles
      ensures Valid()
      ensures st == NavState.Reflow(old(st), n, hasCue, vp, tops, scrollY)
      ensures st.mode == old(st.mode) && st.isAnimating == old(st.isAnimating)
      ensures st.mode == Desktop && !st.isAnimating ==> DesktopLaidOut(vp)
      ensures !(old(st.mode) == Desktop && !old(st.isAnimating)) ==> styles[..] == old(styles[..])
      ensures visible[..] ==
        if old(st.mode) == Mobile then RevealAt(hasReveal, old(visible[..]), st.index) else old(visible[..])
    {
      if st.mode == Desktop && !st.isAnimating {
        LayoutDesktop(vp);
      } else if st.mode == Mobile {
        SyncMobileIndex(tops, scrollY, vp);
      }
    }

    /** `finalizeIntro`: on the first call only, builds the dots, arms the menu trigger, unlocks
        the page and forces the mode derived from the media query. */
    method FinalizeIntro(mobileQuery: bool, vp: int, tops: seq<int>, scrollY: int)
      requires Valid() && |tops| == n
      modifies this`st, visible, dots, styles
      ensures Valid()
      ensures st == FinalizeIntroEffect(old(st), mobileQuery, n, hasCue, hasDots, hasBurger,
                                            hasObserverApi, vp, tops, scrollY)
      ensures old(st.introApplied) ==> visible[..] == old(visible[..]) && styles[..] == old(styles[..])
      ensures !old(st.introApplied) && mobileQuery ==>
        (forall i :: 0 <= i < n ==> styles[i] == Flow) &&
        (forall i :: 0 <= i < n ==> (visible[i] <==> old(visible[i]) || hasReveal[i]))
      ensures !old(st.introApplied) && !mobileQuery ==>
        DesktopLaidOut(vp) && visible[..] == RevealAt(hasReveal, old(visible[..]), st.index)
    {
      if st.introApplied {
        return;
      }
      st := st.(introApplied := true);
      BuildDots();
      ArmBurger();
      UnlockScroll();
      ApplyMode(true, mobileQuery, vp, tops, scrollY);
    }

    /** `buildDots`: where the dots container exists, one button per slide, then their
        `aria-current`. */
    method BuildDots()
      requires Valid()
      modifies this`st, dots
      ensures Valid()
      ensures st == old(st).(dom := old(st).dom.(dotsBuilt := old(st).dom.dotsBuilt || hasDots))
      ensures hasDots ==> forall i :: 0 <= i < n ==> (dots[i] <==> i == st.index)
    {
      if !hasDots {
        return;
      }
      st := st.(dom := st.dom.(dotsBuilt := true));
      UpdateDots();
    }

    /** `armBurger`: where the menu trigger exists, it is activated. */
    method ArmBurger()
      requires Valid()
      modifies this`st
      ensures Valid()
      ensures st == old(st).(dom := old(st).dom.(burgerArmed := old(st).dom.burgerArmed || hasBurger))
    {
      if hasBurger {
        st := st.(dom := st.dom.(burgerArmed := true));
      }
    }

    /** `unlockScroll`: the page lock set by the markup is lifted. */
    method UnlockScroll()
      requires Valid()
      modifies this`st
      ensures Valid()
      ensures st == old(st).(dom := old(st).dom.(unlocked := true))
    {
      st := st.(dom := st.dom.(unlocked := true));
    }

    /** The synchronous start of `run`: the mode is forced and the first slide revealed. */
    method Boot(mobileQuery: bool, vp: int, tops: seq<int>, scrollY: int)
      requires Valid() && |tops| == n
      modifies this`st, visible, dots, styles
      ensures Valid()
      ensures st == ApplyModeEffect(old(st), true, mobileQuery, n, hasCue, hasObserverApi, vp, tops, scrollY)
      ensures n > 0 && hasReveal[0] ==> visible[0]
      ensures mobileQuery ==>
        (forall i :: 0 <= i < n ==> styles[i] == Flow) &&
        (forall i :: 0 <= i < n ==> (visible[i] <==> old(visible[i]) || hasReveal[i]))
      ensures !mobileQuery ==>
        DesktopLaidOut(vp) &&
        visible[..] == RevealAt(hasReveal, RevealAt(hasReveal, old(visible[..]), st.index), 0)
    {
      ApplyMode(true, mobileQuery, vp, tops, scrollY);
      RevealSection(0);
    }
  }
}
