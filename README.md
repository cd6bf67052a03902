# Slide navigator

`script.js` drives a single-page slide deck. It has two modes:

- **Desktop mode** (paginated). The slides are stacked absolutely inside a track. The wheel, touch drags, the keyboard and the dot buttons move a translation from slide to slide with a 450 ms tween. A 320 ms cooldown and a tween flag drop requests that come too early.
- **Mobile mode** (coarse pointer, at most 1024 px wide). The page scrolls natively. The current slide follows the scroll position, through a probe 35% down the viewport on each scroll frame and, where the browser offers one, an intersection observer.

The navigator's state is a handful of closure variables:

- the current index, the mode and the tween flag;
- the touch start, the wheel accumulator and the cooldown timestamp;
- the intro and scroll-cue latches;
- the remembered viewport sizes.

Around that state are:

- the per-slide `is-visible` class;
- the per-button `aria-current` attribute;
- the per-slide inline positioning;
- a few page-level effects: the track's height and translation, the `is-native-mobile` class, the page lock, the armed menu trigger, the observers and listeners.

The model has four modules:

- **`Slides`** (`slides.dfy`) holds the pure pieces:
  - the constants;
  - index clamping;
  - the nearest-slide scan, as a specification function and as the loop the script runs;
  - the observer's choice of a candidate slide;
  - the wheel and touch thresholds;
  - the keys.
- **`NavState`** (`state.dfy`) holds:
  - all the scalar state as one value, `Snapshot`;
  - every handler as a function from the old snapshot to the new;
  - the lemmas about those functions: guards, latches, the cooldown, mode switches, the resize filter.
- **`Controller`** (`controller.dfy`) holds the class `Navigator`:
  - one method per function of the script;
  - a field `st` for the scalar state;
  - the arrays `visible`, `dots` and `styles` for the per-slide and per-button state, updated in place by the script's loops.

  Every event handler keeps the class invariant `Valid()`. (`CleanupMobileObservers` and `SetupMobileObservers` are steps inside a mode switch: they state only the wiring they leave.) The invariant says:

  - the index is in range;
  - every running tween goes between valid slides, and a `go` tween goes to a neighbour;
  - the tween flag implies desktop mode and a running tween;
  - the listeners are attached exactly in mobile mode;
  - only `reveal` slides are visible, and in mobile mode all of them are;
  - in mobile mode every slide is back in native flow;
  - once the buttons exist, exactly the current slide's button is `aria-current`.

  Each handler is proved to compute its `NavState` function on `st`, and states what it does to the arrays it may change. No handler ever removes `is-visible` from a slide.
- **`Scenarios`** (`scenarios.dfy`) drives a `Navigator` through concrete event sequences and states the outcome the script produces.

The browser's inputs are method parameters:

- the clock (`performance.now()`);
- the viewport sizes (`vpHeight()` and `innerWidth`/`innerHeight`);
- the media query;
- the slide tops and the scroll position;
- event deltas, touches, keys and intersection entries.

Native scrolls the script asks for (`scrollIntoView`) are returned as the slide index.

The model follows the code in three places where the script does something a reader may not expect:

- **`tweenTo` with the current slide as target**, e.g. Home on the first slide, still sets the tween flag. It runs a tween that goes nowhere, and navigation is blocked meanwhile (`Scenarios.HomeOnFirstSlide`).
- **A running tween outlives a switch to mobile mode.** `enableMobileMode` clears the flag but does not stop the frame loop. When that loop ends, it still sets the index and the track's translation (`Scenarios.TweenOutlivesMobileSwitch`). Tweens still running are therefore kept as a sequence.
- **The cooldown restarts when a tween ends.** `go` stamps the time when the tween starts, and the tween's completion stamps it again. The 320 ms window therefore counts from the arrival (`Scenarios.CooldownCountsFromArrival`).

## Model

| member | source | states |
|---|---|---|
| Slides.ClampIndex | script.js:61-63 | the result lies in [0, n-1] when there are slides (0 when there are none), equals the request when that is in range, and is the nearer end otherwise |
| Slides.ClampIdempotent | script.js:61-63 | a clamped index is a fixed point of clamping |
| Slides.Nearest | script.js:73-87 | the scan's answer is a slide index (0 when there are no slides) |
| Slides.NearestIsClosest | script.js:73-87 | the answer's distance to the probe is minimal over all slides, and every earlier slide is strictly farther (ties go to the lowest index, as the strict `<` makes them) |
| Slides.NearestIsUnique | script.js:79-84 | the closest-with-lowest-index property determines the answer: any index with it is the scan's answer |
| Slides.NearestMobileIndex | script.js:73-87 | the loop over the tops with a best index and best distance returns the scan's answer, a closest slide in range |
| Slides.NearestExample | script.js:73-75 | tops 0, 800 and 1600, scroll 750 and viewport 1000 put the probe at 1100 and select slide 1 |
| Slides.LastCandidateIsLast | script.js:228-233 | the observer's candidate exists exactly when some entry intersects with ratio at least 0.45, and it is the target of the last such entry |
| Slides.WheelStep | script.js:332-337 | a step fires exactly when the accumulated sum reaches 60 in absolute value, in the sum's direction, and then the accumulator is emptied; otherwise the sum is kept |
| Slides.ThreeSmallDeltasFireOnce | script.js:332-337 | three deltas of 20 to 29 pixels fire one forward step, on the third, and leave the accumulator empty |
| Slides.TouchStep | script.js:351-357 | a drag fires a step exactly when it exceeds 30 pixels, upward for +1 and downward for -1 |
| NavState.HideCueSpec | script.js:96-100 | the cue ends up dismissed exactly when it was already, or the page has one and the caller's condition (`when`) holds; nothing else changes |
| NavState.HideCueIdempotent | script.js:96-100 | dismissing the cue a second time changes nothing |
| Slides.Probe | script.js:74 | the probe, in hundredths of a pixel, lies inside the viewport: at or below the scroll position and at or above its bottom edge |
| Slides.LastCandidate | script.js:229-233 | a candidate is always the target of an entry of the batch that intersects by at least 0.45 |
| Controller.MarkIntersecting | script.js:230-237 | applying a batch keeps one flag per slide; what it adds is `MarkIntersectingSpec` |
| NavState.ActiveHeight | script.js:48-51 | desktop mode always uses the live viewport height; mobile mode uses the cached height once a positive one is cached |
| NavState.StartTween | script.js:145-147 | starting a tween never moves the index or the mode; a start that happens sets the flag and adds exactly one tween |
| NavState.GoEffect | script.js:176-188 | `go` never moves the index or the mode itself: only the tween's completion does |
| NavState.FinishTween | script.js:165-166 | completing a tween clears the flag, keeps the mode and ends exactly one tween |
| NavState.WheelEffect | script.js:326-338 | a wheel event never moves the index or the mode itself, and does nothing at all in mobile mode |
| NavState.TouchMoveEffect | script.js:347-358 | a touch move never moves the index or the mode itself, and whenever it prevents the default it has forgotten the start |
| NavState.KeyEffect | script.js:364-395 | a key never moves the index or the mode itself; a native scroll is asked for only outside desktop mode and only to an existing slide |
| NavState.SetIndexEffect | script.js:124-131 | the index becomes the clamped request, and the mode, the flag, the tweens, the viewport sizes, the page state and the wiring are untouched |
| NavState.ResizeEffect | script.js:296-324 | every resize records the new width and height, and no resize starts or ends a tween's frame loop |
| NavState.StartTweenSpec | script.js:145-147 | a tween starts exactly in desktop mode with none running; it sets the flag and adds one tween from the current slide, and nothing else changes |
| NavState.GoEffectSpec | script.js:176-188 | `go` changes the state exactly when the navigator is in desktop mode, idle and out of the cooldown and the clamped target differs from the index; then it stamps the time and starts a tween to that target, and a dropped request leaves even the timestamp alone |
| NavState.GoStepIsAdjacent | script.js:181-187 | from a valid index, a `go` that fires starts a tween from the current slide to a neighbouring slide in range |
| NavState.FinishTweenSpec | script.js:155-169 | at completion the index is the tween's target, the flag is cleared, the track rests at the target's offset, and the other running tweens are kept in order |
| NavState.GoThenComplete | script.js:176-188 | a `go` that fires and then completes moves the index by exactly one slide, to the clamped target, leaves the navigator idle and stamps the cooldown at the completion time |
| NavState.CooldownAfterStep | script.js:176-188 | after a completed step, `go` is dropped for 320 ms from the completion and fires again from then on |
| NavState.WheelIgnoredWhileBusy | script.js:326-330 | during a tween or the cooldown a wheel event changes nothing but, possibly, the cue |
| NavState.WheelThreeTicks | script.js:326-338 | three wheel events of 25 pixels on a ready navigator keep the tweens for two events, then start exactly one tween to the next slide and empty the accumulator |
| NavState.TouchStartSpec | script.js:340-345 | a touch start records the first touch exactly in desktop mode with a touch present, and changes nothing else |
| NavState.TouchMoveThreshold | script.js:347-358 | outside desktop mode, without a start or during a tween nothing happens; a move navigates only past 30 pixels; such a drag always forgets the start and prevents the default, even when `go` then drops the step; on a ready navigator it tweens to the clamped neighbour in the drag's direction (`TouchStep`: +1 for an upward drag) whenever that is another slide; a shorter drag keeps everything but the cue |
| NavState.InputKeepsFlag | script.js:147-166 | while a tween runs, a touch move, any key and any wheel event leave the tween flag set |
| NavState.ResizeKeepsFlagInDesktop | script.js:251-253 | during a tween, a resize clears the flag exactly when the media query asks for mobile mode |
| NavState.IntroKeepsFlagInDesktop | script.js:433-440 | the end of the intro in desktop mode keeps a running tween's flag |
| NavState.TouchEndSpec | script.js:360-362 | a touch end forgets the start and changes nothing else |
| NavState.MobileKeysOnlyScroll | script.js:385-394 | in mobile mode only Home and End act: Home asks for a native scroll to the first slide and End to the last, when there is one; no key moves the index or starts a tween |
| NavState.OtherKeysIgnored | script.js:364-395 | keys whose code is none of the seven navigation codes change nothing and are not prevented, in either mode |
| NavState.StartTweenFromIndex | script.js:145-147 | starting a tween to a slide in range adds at most one tween, from the current slide, and keeps the index |
| NavState.GoFromIndex | script.js:176-188 | a `go` from a valid index adds at most one tween, from the current slide to a slide in range, and keeps the index |
| NavState.DesktopKeyTweens | script.js:366-382 | in desktop mode a key starts at most one tween, from the current slide to a slide in range, and never moves the index itself |
| NavState.DesktopKeyTargets | script.js:366-382 | in desktop mode ArrowDown, PageDown and Space tween to the next slide and ArrowUp and PageUp to the previous one, once the cooldown is over; Home tweens to the first slide and End to the last whenever no tween runs; exactly the seven navigation keys prevent the default |
| NavState.SetIndexSpec | script.js:124-131 | the index becomes the clamped request; the state is unchanged exactly when that was the index; otherwise the cue is dismissed exactly when the new index is past the first slide |
| NavState.SetIndexIdempotent | script.js:124-131 | setting the same request twice is setting it once |
| NavState.MobileScrollCoalesces | script.js:212-221 | a scroll event in mobile mode leaves a frame pending without moving the index; a second event before the frame runs can at most dismiss the cue |
| NavState.EnterMobileSpec | script.js:251-272 | entering mobile mode clears the flag and the track's geometry, caches the height, attaches the observers and lands on the slide nearest the probe; tweens, timestamp and accumulator are kept |
| NavState.EnterDesktopSpec | script.js:274-286 | entering desktop mode detaches the observers, clears the height cache, lands on the clamped nearest slide and sizes and translates the track for it; flag, tweens and cue are kept |
| NavState.ApplyModeFollowsQuery | script.js:288-294 | after `applyMode`, forced or not, the mode is the one the media query asks for |
| NavState.ResizeBarsOnlyRecords | script.js:305-309 | a mobile resize under 2 pixels wide and under 120 pixels high records the size and changes nothing else |
| NavState.ResizeFollowsQuery | script.js:311-322 | any other resize records the size and leaves the mode the query asks for: mobile with the fresh height cached and the index on the nearest slide, or an idle desktop track laid out for the new height |
| NavState.FinalizeIntroOnce | script.js:433-440 | the first `finalizeIntro` sets the latch, and a second call, with any inputs, changes nothing |
| Controller.RevealAt | script.js:89-94 | revealing a slide adds `is-visible` to it if it exists and carries `reveal`, and changes no other flag |
| Controller.MarkIntersectingSpec | script.js:228-237 | an observer batch only adds `is-visible`, to exactly the `reveal` slides that some entry reports intersecting |
| Controller.Navigator.constructor | script.js:14-34 | the initial closure state: desktop mode, slide 0, no tween, no latch set, the window's size remembered, nothing revealed or laid out |
| Controller.Navigator.HideScrollCue | script.js:96-100 | computes the cue latch and keeps the invariant |
| Controller.Navigator.RevealSection | script.js:89-94 | the visibility flags become the revealed flags, and only `reveal` slides ever become visible |
| Controller.Navigator.UpdateDots | script.js:116-122 | once the buttons exist, exactly the current slide's button is `aria-current` |
| Controller.Navigator.SetIndex | script.js:124-131 | computes `setIndex` on the state, reveals the new slide only on a change, and keeps the dots current |
| Controller.Navigator.LayoutDesktop | script.js:133-143 | slide i sits at i·h, the track is n·h tall and translated by -index·h, so the current slide's top lands at 0 |
| Controller.Navigator.TweenTo | script.js:145-150 | the tween starts exactly in desktop mode with none running, and the state is the start phase's |
| Controller.Navigator.CompleteTween | script.js:155-169 | completes a running tween: index on the target, flag cleared, target revealed, dots current; a `go` tween that completes while the index is still its start moves the index by exactly one |
| Controller.Navigator.LastFrame | script.js:156-166 | the final frame keeps the class invariant apart from the dots: the track rests at the target's offset, the index is the target, the flag is cleared and that tween ends, the others running on in order |
| Controller.Navigator.Go | script.js:176-188 | computes `go`'s guarded start on the state and keeps the invariant |
| Controller.Navigator.OnWheel | script.js:326-338 | computes the wheel handler: cue, guard, accumulator and at most one `go` |
| Controller.Navigator.Accumulate | script.js:332-337 | once the guard has passed: a sum below the threshold is kept; a sum that reaches it empties the accumulator and calls `go` in its direction |
| Controller.Navigator.OnTouchStart | script.js:340-345 | records the first touch in desktop mode |
| Controller.Navigator.OnTouchMove | script.js:347-358 | computes the touch-move handler and whether the default was prevented |
| Controller.Navigator.OnTouchEnd | script.js:360-362 | forgets the touch start |
| Controller.Navigator.OnKeyDown | script.js:364-395 | computes the key dispatch of either mode: new state, prevented default and native scroll target |
| Controller.Navigator.OnDotClick | script.js:404-410 | in mobile mode a dot asks for a native scroll to its slide and changes nothing; in desktop mode it starts a tween to its slide when idle |
| Controller.Navigator.CleanupMobileObservers | script.js:190-200 | the observer is detached, the scroll listener removed and a pending frame cancelled |
| Controller.Navigator.SetupMobileObservers | script.js:223-249 | the observers are attached afresh: the intersection observer where the browser has one, the scroll listener always, no frame pending |
| Controller.Navigator.SyncMobileIndex | script.js:202-210 | the index moves to the slide nearest the probe (with the cached mobile height), and that slide is revealed |
| Controller.Navigator.OnMobileScroll | script.js:212-221 | in mobile mode: cue past 20 pixels, one frame pending however many events arrive |
| Controller.Navigator.MobileScrollFrame | script.js:217-220 | the pending frame clears its flag and synchronises the index to the nearest slide, revealing it |
| Controller.Navigator.OnIntersect | script.js:228-242 | every intersecting `reveal` slide is revealed; the target of the last entry intersecting by at least 0.45 becomes the current slide when that target is a slide, and otherwise (no such entry, or its target is not a slide) the index is unchanged |
| Controller.Navigator.EnableMobileMode | script.js:251-272 | computes entering mobile mode, clears every slide's positioning and makes every `reveal` slide visible |
| Controller.Navigator.EnableDesktopMode | script.js:274-286 | computes entering desktop mode, lays the slides out and reveals the current slide |
| Controller.Navigator.ApplyMode | script.js:288-294 | enters the queried mode when forced or when it differs; otherwise the state and the arrays are untouched |
| Controller.Navigator.OnResize | script.js:296-324 | computes the resize frame; a bars-only resize leaves the slides untouched; otherwise a page that ends in mobile mode has every slide in flow and exactly the old visible slides plus the `reveal` ones visible, and a page that ends in desktop mode keeps its visible slides (or, having just left mobile mode, reveals the current one), is laid out for the new height when idle, and keeps its positioning during a tween |
| Controller.Navigator.Refit | script.js:317-322 | `applyMode(false)` followed by the re-layout or re-synchronisation, with the same per-slide outcome as a resize that is more than the bars |
| Controller.Navigator.Reflow | script.js:318-322 | after `applyMode`, an idle desktop track is laid out again and nothing else changes; in mobile mode the index is re-synchronised and its slide revealed, positioning untouched; during a tween nothing changes |
| Controller.Navigator.FinalizeIntro | script.js:433-440 | on the first call only: latch, dots, menu trigger, unlock and a forced mode, after which mobile mode has every slide in flow and the `reveal` slides added to the visible ones, and desktop mode is laid out with the current slide revealed; a later call leaves everything untouched |
| Controller.Navigator.BuildDots | script.js:397-420 | where the container exists, the buttons exist afterwards with exactly the current slide's `aria-current` |
| Controller.Navigator.ArmBurger | script.js:422-427 | where the menu trigger exists, it is armed |
| Controller.Navigator.UnlockScroll | script.js:429-431 | the page is unlocked |
| Controller.Navigator.Boot | script.js:442-445 | the start of `run` forces the queried mode and reveals the first slide: in mobile mode every slide is in flow and the `reveal` slides are added to the visible ones; in desktop mode the page is laid out and exactly the current and the first slide are revealed besides those already visible |
| Scenarios.ThreeWheelTicks | script.js:326-338 | on a fresh page, wheel deltas 25, 25, 25 start no tween after two events and one tween from slide 0 to 1 after the third, with the accumulator empty |
| Scenarios.CooldownCountsFromArrival | script.js:185-187 | a step started at 1000 that lands at 1450 blocks a key at 1700, and a key at 1800 starts the next step |
| Scenarios.HomeOnFirstSlide | script.js:374-376 | Home on the first slide still starts a tween, from slide 0 to slide 0, and a forward key during it is dropped |
| Scenarios.MobileBarsAndRotation | script.js:305-316 | on a phone an 80-pixel height change keeps the cached height, and a larger change replaces it |
| Scenarios.TweenOutlivesMobileSwitch | script.js:251-253 | a tween started on the desktop layout, completing after a switch to mobile mode, sets the index to 1 and translates the track in mobile mode |

## Left out

- The eased per-frame translation (`easeInOutCubic`, the frame's `y`) is floating point. Only the start and the last frame of a tween are modelled.
- Animation-frame and timer scheduling, promises, `sleep` and the asynchronous part of `run` (the subtitle, the fallback timer, adding the listeners) are browser event-loop plumbing. Each callback is one method call, and the caller decides the order.
- The resize handler's frame debounce: one resize frame is modelled as one atomic `OnResize`. The frames it cancels are never run.
- Browser reads are parameters of the methods that use them: `vpHeight`, `matchMedia`, `getBoundingClientRect`, `scrollY`, `innerWidth`/`innerHeight`.
- Browser effects are left out or returned as values: `scrollTo`, `scrollIntoView`, the `--app-vh` custom property written by `setViewportVar`, and `clearMobileFrameFx`.
- `updateMobileFrameFx` does nothing and is not modelled.
- The dot buttons' keydown handler re-dispatches Enter and Space as a click. It is not modelled separately; the click is `OnDotClick`.
- Observer construction and the listener calls are modelled only by their logical effect: attached or not, and a frame pending or not.
- Slide tops, the scroll position, event deltas, touch positions (`clientY`) and the clock (`performance.now()`, fractional milliseconds) are integers. The probe's 0.35 is exact: distances are compared in hundredths of a pixel. The browser computes with binary floating point and could break an exact tie differently.
- Intersection ratios are integer hundredths.
- An entry's target is its position in the slide list. The observer watches only the slides, but an entry may still carry a target outside [0, n). Such an entry stands for `indexOf` returning -1: it is never made current, and it gets no `is-visible`.
- On an empty deck, End asks for `tweenTo(-1)`, and the index can become -1 (`IndexOk` allows exactly that). What the browser then shows is not modelled.
- The markup the script assumes is a set of constants of the `Navigator`. These are: which slides carry `reveal`, and whether the cue, the dot container, the menu trigger and the observer interface exist. The script's early return when the track is missing is not modelled.
- The markup is assumed to start with no slide carrying `is-visible` (the constructor) and with no `<button>` in the dot container before `buildDots`. The script's `updateDots` would also mark buttons already there, and `buildDots` empties the container before adding its own.
