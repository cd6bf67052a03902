/** Event sequences driven through the navigator object, each with the outcome the script
    produces for it. Every page element is present and the page has three `reveal` slides. */
module Scenarios {
  import opened Slides
  import opened NavState
  import opened Controller

  /** Three wheel events of 25 pixels on a fresh desktop page start exactly one tween, from slide
      0 to slide 1, on the third event, and empty the accumulator. */
  method ThreeWheelTicks() returns (afterTwo: seq<Tween>, afterThree: seq<Tween>, accum: int)
    ensures afterTwo == [] && accum == 0
    ensures afterThree == [Tween(0, 1, 800, true)]
  {
    var nav := new Navigator([true, true, true], true, true, true, true, 1280, 800);
    nav.OnWheel(25, 1000, 800);
    nav.OnWheel(25, 1000, 800);
    afterTwo := nav.st.tweens;
    nav.OnWheel(25, 1000, 800);
    afterThree, accum := nav.st.tweens, nav.st.wheelAccum;
  }

  /** The cooldown counts from the end of a step, not its start: after a step that starts at 1000
      and lands at 1450, a key at 1700 is dropped although 700 ms have passed since the step
      began, and a key at 1800 starts the next step. */
  method CooldownCountsFromArrival() returns (landed: int, early: bool, late: seq<Tween>)
    ensures landed == 1 && !early
    ensures late == [Tween(1, 2, 800, true)]
  {
    var nav := new Navigator([true, true, true], true, true, true, true, 1280, 800);
    var prevented, scrollTo := nav.OnKeyDown(ArrowDown, 1000, 800);
    nav.CompleteTween(0, 1450);
    landed := nav.st.index;
    prevented, scrollTo := nav.OnKeyDown(ArrowDown, 1700, 800);
    early := nav.st.isAnimating;
    prevented, scrollTo := nav.OnKeyDown(ArrowDown, 1800, 800);
    late := nav.st.tweens;
  }

  /** Home on the first slide still runs a tween (from slide 0 to slide 0), and a forward key
      pressed during it is dropped. */
  method HomeOnFirstSlide() returns (prevented: bool, tweens: seq<Tween>)
    ensures prevented
    ensures tweens == [Tween(0, 0, 800, false)]
  {
    var nav := new Navigator([true, true, true], true, true, true, true, 1280, 800);
    var scrollTo;
    prevented, scrollTo := nav.OnKeyDown(Home, 1000, 800);
    var again;
    again, scrollTo := nav.OnKeyDown(ArrowDown, 1100, 800);
    tweens := nav.st.tweens;
  }

  /** On a phone, a height change of 80 pixels (the browser bars) keeps the cached viewport
      height, while a later change of 150 pixels replaces it. */
  method MobileBarsAndRotation() returns (cachedAfterBars: int, cachedAfterResize: int)
    ensures cachedAfterBars == 700
    ensures cachedAfterResize == 930
  {
    var nav := new Navigator([true, true, true], true, true, true, true, 390, 700);
    var tops := [0, 700, 1400];
    nav.Boot(true, 700, tops, 0);
    nav.OnResize(390, 780, 780, true, tops, 0);
    cachedAfterBars := nav.st.viewport.mobileViewportH;
    nav.OnResize(390, 930, 930, true, tops, 0);
    cachedAfterResize := nav.st.viewport.mobileViewportH;
  }

  /** A step started on the desktop layout outlives a switch to native scrolling: when its last
      frame runs, the page is in mobile mode showing slide 0, yet the index becomes 1 and the
      track gets a translation again. */
  method TweenOutlivesMobileSwitch() returns (mode: Mode, index: int, offset: Option<int>)
    ensures mode == Mobile && index == 1 && offset == Some(-800)
  {
    var nav := new Navigator([true, true, true], true, true, true, true, 1280, 800);
    var tops := [0, 800, 1600];
    nav.Boot(false, 800, tops, 0);
    var prevented, scrollTo := nav.OnKeyDown(ArrowDown, 1000, 800);
    nav.OnResize(1000, 800, 800, true, tops, 0);
    nav.CompleteTween(0, 1450);
    mode, index, offset := nav.st.mode, nav.st.index, nav.st.dom.trackOffset;
  }
}
