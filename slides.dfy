/** The pure pieces of the slide navigator: index clamping, the nearest-slide probe used in
    native-scroll (mobile) mode, the choice of the current slide from a batch of intersection
    entries, and the thresholds that turn wheel and touch input into single steps. */
module Slides {

  datatype Option<T> = None | Some(value: T)

  /** Milliseconds that must pass after a navigation before `go` accepts the next one. */
  const NavCooldown: int := 320
  /** Accumulated wheel delta, in pixels, that fires one step. */
  const WheelThreshold: int := 60
  /** Wheel deltas larger than this dismiss the scroll cue. */
  const WheelCueThreshold: int := 1
  /** Vertical drag, in pixels, beyond which a touch fires one step. */
  const TouchThreshold: int := 30
  /** Vertical drag beyond which a touch dismisses the scroll cue. */
  const TouchCueThreshold: int := 8
  /** Height changes below this, in mobile mode, are the browser bars showing or hiding. */
  const MobileBarResizeEps: int := 120
  /** Width changes below this, in mobile mode, are not a real resize. */
  const WidthEps: int := 2
  /** Intersection ratio, in hundredths, from which an entry is a candidate for the current slide. */
  const CandidateRatio: int := 45
  /** The probe sits this many hundredths of the viewport height below the scroll position. */
  const ProbeHundredths: int := 35
  /** Native scrolling past this many pixels dismisses the scroll cue. */
  const CueScrollOffset: int := 20

  function Abs(x: int): nat { if x < 0 then -x else x }

  function Min(a: int, b: int): int { if a <= b then a else b }

  function Max(a: int, b: int): int { if a >= b then a else b }

  /** `Math.max(0, Math.min(n - 1, next))`: the slide index closest to `next`; 0 when there are no slides. */
  function ClampIndex(n: nat, next: int): (r: int)
    ensures n == 0 ==> r == 0
    ensures n > 0 ==> 0 <= r < n
    ensures 0 <= next < n ==> r == next
    ensures next < 0 ==> r == 0
    ensures n > 0 && next >= n ==> r == n - 1
  {
    Max(0, Min(n - 1, next))
  }

  /** Clamping twice is clamping once: a clamped index is a fixed point. */
  lemma ClampIdempotent(n: nat, next: int)
    ensures ClampIndex(n, ClampIndex(n, next)) == ClampIndex(n, next)
  {
  }

  // ----- Nearest slide to the scroll probe -----

  /** The probe point, in hundredths of a pixel: the scroll position plus 35% of the viewport height. */
  function Probe(scrollY: int, viewportH: int): (r: int)
    ensures viewportH >= 0 ==> 100 * scrollY <= r <= 100 * (scrollY + viewportH)
  {
    100 * scrollY + ProbeHundredths * viewportH
  }

  /** Distance, in hundredths of a pixel, between a slide top (in pixels) and the probe (in hundredths). */
  function Distance(top: int, probe: int): nat
  {
    Abs(100 * top - probe)
  }

  /** The index a left-to-right scan settles on when it replaces its best candidate only on a
      strictly smaller distance, starting from "no candidate yet" (an infinite distance). */
  function Nearest(tops: seq<int>, probe: int): (r: nat)
    ensures |tops| == 0 ==> r == 0
    ensures |tops| > 0 ==> r < |tops|
    decreases |tops|
  {
    if |tops| <= 1 then 0
    else
      var b := Nearest(tops[..|tops| - 1], probe);
      if Distance(tops[|tops| - 1], probe) < Distance(tops[b], probe) then |tops| - 1 else b
  }

  /** The scan's answer is a closest slide, and every slide before it is strictly farther:
      ties go to the lowest index. */
  lemma {:induction false} NearestIsClosest(tops: seq<int>, probe: int)
    requires |tops| > 0
    ensures forall i :: 0 <= i < |tops| ==>
      Distance(tops[Nearest(tops, probe)], probe) <= Distance(tops[i], probe)
    ensures forall i :: 0 <= i < Nearest(tops, probe) ==>
      Distance(tops[i], probe) > Distance(tops[Nearest(tops, probe)], probe)
  {
    if |tops| > 1 {
      var init := tops[..|tops| - 1];
      NearestIsClosest(init, probe);
      var b := Nearest(init, probe);
      assert forall i :: 0 <= i < |init| ==> init[i] == tops[i];
    }
  }

  /** The closest-with-lowest-index property pins the answer down: no other index has it. */
  lemma NearestIsUnique(tops: seq<int>, probe: int, k: nat)
    requires k < |tops|
    requires forall i :: 0 <= i < |tops| ==> Distance(tops[k], probe) <= Distance(tops[i], probe)
    requires forall i :: 0 <= i < k ==> Distance(tops[i], probe) > Distance(tops[k], probe)
    ensures k == Nearest(tops, probe)
  {
    NearestIsClosest(tops, probe);
  }

  /** `nearestMobileIndex`: a linear scan over the slide tops keeping the best index and its distance. */
  method NearestMobileIndex(tops: seq<int>, probe: int) returns (best: nat)
    ensures best == Nearest(tops, probe)
    ensures |tops| == 0 ==> best == 0
    ensures |tops| > 0 ==> best < |tops|
    ensures |tops| > 0 ==>
      forall i :: 0 <= i < |tops| ==> Distance(tops[best], probe) <= Distance(tops[i], probe)
  {
    best := 0;
    var bestDist: Option<nat> := None;
    var i := 0;
    while i < |tops|
      invariant 0 <= i <= |tops|
      invariant best == Nearest(tops[..i], probe)
      invariant i == 0 <==> bestDist.None?
      invariant i > 0 ==> best < i && bestDist == Some(Distance(tops[best], probe))
    {
      var dist := Distance(tops[i], probe);
      assert tops[..i + 1][..i] == tops[..i];
      if bestDist.None? || dist < bestDist.value {
        best := i;
        bestDist := Some(dist);
      }
      i := i + 1;
    }
    assert tops[..|tops|] == tops;
    if |tops| > 0 {
      NearestIsClosest(tops, probe);
    }
  }

  /** Slide tops 0, 800 and 1600 with the page scrolled to 750 in a 1000-pixel viewport: the
      probe is at 1100, so slide 1 (300 away) wins over slide 2 (500 away). */
  lemma NearestExample()
    ensures Nearest([0, 800, 1600], Probe(750, 1000)) == 1
  {
  }

  // ----- Intersection entries -----

  /** One intersection-observer entry: `target` is the slide's position in the slide list
      (outside [0, n) for an element that is not a slide), `ratio` is in hundredths. */
  datatype Entry = Entry(target: int, isIntersecting: bool, ratio: int)

  predicate Qualifies(e: Entry)
  {
    e.isIntersecting && e.ratio >= CandidateRatio
  }

  /** The candidate a forward pass over the batch ends with: the target of the last entry that
      intersects with a ratio of at least 0.45. */
  function LastCandidate(entries: seq<Entry>): (r: Option<int>)
    ensures r.Some? ==> exists e :: e in entries && Qualifies(e) && e.target == r.value
    decreases |entries|
  {
    if |entries| == 0 then None
    else if Qualifies(entries[|entries| - 1]) then Some(entries[|entries| - 1].target)
    else LastCandidate(entries[..|entries| - 1])
  }

  /** There is a candidate exactly when some entry qualifies, and it is the target of a
      qualifying entry after which no entry qualifies. */
  lemma {:induction false} LastCandidateIsLast(entries: seq<Entry>)
    ensures LastCandidate(entries).None? <==> forall j :: 0 <= j < |entries| ==> !Qualifies(entries[j])
    ensures LastCandidate(entries).Some? ==>
      exists j :: 0 <= j < |entries| && Qualifies(entries[j]) &&
        entries[j].target == LastCandidate(entries).value &&
        forall k :: j < k < |entries| ==> !Qualifies(entries[k])
  {
    if |entries| > 0 && !Qualifies(entries[|entries| - 1]) {
      var init := entries[..|entries| - 1];
      LastCandidateIsLast(init);
      assert forall j :: 0 <= j < |init| ==> init[j] == entries[j];
      if LastCandidate(init).Some? {
        var j :| 0 <= j < |init| && Qualifies(init[j]) &&
          init[j].target == LastCandidate(init).value &&
          forall k :: j < k < |init| ==> !Qualifies(init[k]);
        assert forall k :: j < k < |entries| ==> !Qualifies(entries[k]);
      }
    }
  }

  // ----- Wheel and touch thresholds -----

  /** Adds one wheel delta to the accumulator. The result is the new accumulator and the step
      it fires: 0 while the sum stays below the threshold, otherwise the sign of the sum, with
      the accumulator reset to 0. */
  function WheelStep(accum: int, deltaY: int): (r: (int, int))
    ensures r.1 != 0 <==> Abs(accum + deltaY) >= WheelThreshold
    ensures r.1 == 1 <==> accum + deltaY >= WheelThreshold
    ensures r.1 == -1 <==> accum + deltaY <= -WheelThreshold
    ensures r.1 != 0 ==> r.0 == 0
    ensures r.1 == 0 ==> r.0 == accum + deltaY && Abs(r.0) < WheelThreshold
  {
    var sum := accum + deltaY;
    if Abs(sum) < WheelThreshold then (sum, 0)
    else (0, if sum > 0 then 1 else -1)
  }

  /** Wheel deltas between 20 and 29 pixels fire exactly one step, on the third event, and leave
      the accumulator empty. */
  lemma ThreeSmallDeltasFireOnce(d: int)
    requires 20 <= d < 30
    ensures WheelStep(0, d) == (d, 0)
    ensures WheelStep(d, d) == (2 * d, 0)
    ensures WheelStep(2 * d, d) == (0, 1)
  {
  }

  /** The step a drag from `startY` to `clientY` fires: +1 for an upward drag of more than 30
      pixels, -1 for a downward one, 0 otherwise. */
  function TouchStep(startY: int, clientY: int): (dir: int)
    ensures dir != 0 <==> Abs(startY - clientY) > TouchThreshold
    ensures dir == 1 <==> startY - clientY > TouchThreshold
    ensures dir == -1 <==> clientY - startY > TouchThreshold
  {
    var dy := startY - clientY;
    if Abs(dy) <= TouchThreshold then 0
    else if dy > 0 then 1 else -1
  }

  /** The code of a key the navigator does not handle. */
  type OtherCode = c: string | c !in {"ArrowDown", "PageDown", "Space", "ArrowUp", "PageUp", "Home", "End"} witness ""

  /** The `code` of a keyboard event, as far as the navigator distinguishes it. */
  datatype Key = ArrowDown | PageDown | Space | ArrowUp | PageUp | Home | End | OtherKey(code: OtherCode)

  predicate IsForwardKey(k: Key) { k == ArrowDown || k == PageDown || k == Space }

  predicate IsBackwardKey(k: Key) { k == ArrowUp || k == PageUp }
}
