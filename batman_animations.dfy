/** The themed landing page: a loading screen that a timer hides, scroll-reveal
    elements that receive `animate` once they meet the viewport, a quote
    carousel rotated by an interval timer and by the arrow keys (each with a
    counter of its own), and stat blocks that pulse once. Timers, scrolling and
    key presses are explicit steps; element positions and viewport sizes are
    integer inputs. */
module BatmanAnimations {
  import opened Dom
  import opened JsNumbers

  const HiddenClass := "hidden"
  const VisibleClass := "visible"
  const ActiveClass := "active"
  const AnimateClass := "animate"
  const PulseAnimation := "batmanPulse 0.6s ease-out"

  // ---------------------------------------------------------------------
  // Quote indices

  /** `(i + 1) % n` */
  function NextQuote(i: nat, n: nat): (r: nat)
    requires n > 0
    ensures r < n
    ensures i < n ==> r == if i == n - 1 then 0 else i + 1
  {
    (i + 1) % n
  }

  /** `(i - 1 + n) % n` */
  function PrevQuote(i: nat, n: nat): (r: nat)
    requires n > 0
    ensures r < n
    ensures i < n ==> r == if i == 0 then n - 1 else i - 1
  {
    (i - 1 + n) % n
  }

  /** The rotation index after `k` ticks of the interval timer. */
  function Advance(i: nat, n: nat, k: nat): nat
    requires n > 0
  {
    if k == 0 then i else NextQuote(Advance(i, n, k - 1), n)
  }

  lemma {:induction false} AdvanceSplits(i: nat, n: nat, a: nat, b: nat)
    requires n > 0
    ensures Advance(i, n, a + b) == Advance(Advance(i, n, a), n, b)
  {
    if b > 0 {
      AdvanceSplits(i, n, a, b - 1);
    }
  }

  lemma {:induction false} AdvanceCounts(i: nat, n: nat, k: nat)
    requires i + k < n
    ensures Advance(i, n, k) == i + k
  {
    if k > 0 {
      AdvanceCounts(i, n, k - 1);
    }
  }

  /** The rotation stays within the quotes, shows every quote in turn, and is
      back where it started after `n` ticks. */
  lemma RotationCycles(n: nat, i: nat)
    requires 0 < n && i < n
    ensures forall k :: Advance(i, n, k) < n
    ensures forall j :: 0 <= j < n ==> Advance(0, n, j) == j
    ensures Advance(i, n, n) == i
  {
    forall k: nat ensures Advance(i, n, k) < n {
      if k > 0 {
        assert Advance(i, n, k) == NextQuote(Advance(i, n, k - 1), n);
      }
    }
    forall j | 0 <= j < n ensures Advance(0, n, j) == j {
      AdvanceCounts(0, n, j);
    }
    AdvanceSplits(i, n, n - i, i);
    AdvanceCounts(i, n, n - i - 1);
    assert Advance(i, n, n - i) == 0;
    AdvanceCounts(0, n, i);
  }

  /** ArrowRight then ArrowLeft, and the other way round, give back the index. */
  lemma KeyIndicesInverse(i: nat, n: nat)
    requires 0 < n && i < n
    ensures PrevQuote(NextQuote(i, n), n) == i
    ensures NextQuote(PrevQuote(i, n), n) == i
  {
  }

  // ---------------------------------------------------------------------
  // Quote elements

  /** `quotes[from].classList.remove('active'); quotes[to].classList.add('active')` */
  function MoveActive(qs: seq<Element>, from: nat, to: nat): seq<Element>
    requires from < |qs| && to < |qs|
  {
    var off := qs[from := RemoveClass(qs[from], ActiveClass)];
    off[to := AddClass(off[to], ActiveClass)]
  }

  ghost predicate OnlyActive(qs: seq<Element>, i: nat) {
    forall j :: 0 <= j < |qs| ==> (ActiveClass in qs[j].classes <==> j == i)
  }

  /** A step moves the one active quote and changes no other quote. */
  lemma MoveActiveKeepsOne(qs: seq<Element>, from: nat, to: nat)
    requires from < |qs| && to < |qs| && OnlyActive(qs, from)
    ensures OnlyActive(MoveActive(qs, from, to), to)
    ensures |MoveActive(qs, from, to)| == |qs|
    ensures forall j :: 0 <= j < |qs| && j != from && j != to ==> MoveActive(qs, from, to)[j] == qs[j]
  {
  }

  /** ArrowRight then ArrowLeft from index `i`: the index comes back, quote `i`
      ends active, the quote after it ends inactive, and nothing else changes;
      starting with exactly quote `i` active, the quotes are as they were. */
  lemma RightThenLeft(qs: seq<Element>, i: nat)
    requires i < |qs|
    ensures var n := |qs|; var j := NextQuote(i, n); var after := MoveActive(MoveActive(qs, i, j), j, i);
      && PrevQuote(j, n) == i
      && |after| == n
      && after[i] == AddClass(qs[i], ActiveClass)
      && (j != i ==> after[j] == RemoveClass(qs[j], ActiveClass))
      && (forall k :: 0 <= k < n && k != i && k != j ==> after[k] == qs[k])
      && (OnlyActive(qs, i) ==> after == qs)
  {
    var n := |qs|;
    var j := NextQuote(i, n);
    var after := MoveActive(MoveActive(qs, i, j), j, i);
    if j == i {
      assert after[i] == AddClass(qs[i], ActiveClass) by {
        assert (qs[i].classes - {ActiveClass} + {ActiveClass} - {ActiveClass}) + {ActiveClass}
          == qs[i].classes + {ActiveClass};
      }
    } else {
      assert after[i] == AddClass(qs[i], ActiveClass) by {
        assert qs[i].classes - {ActiveClass} + {ActiveClass} == qs[i].classes + {ActiveClass};
      }
      assert after[j] == RemoveClass(qs[j], ActiveClass) by {
        assert qs[j].classes + {ActiveClass} - {ActiveClass} == qs[j].classes - {ActiveClass};
      }
    }
    if OnlyActive(qs, i) {
      assert qs[i].classes + {ActiveClass} == qs[i].classes;
      if j != i {
        assert qs[j].classes - {ActiveClass} == qs[j].classes;
      }
      assert forall k :: 0 <= k < n ==> after[k] == qs[k];
    }
  }

  // ---------------------------------------------------------------------
  // Scroll reveal

  /** What the page reports: `window.pageYOffset`,
      `document.documentElement.scrollTop` and `window.innerHeight`. */
  datatype Viewport = Viewport(pageYOffset: int, scrollTop: int, innerHeight: int)

  /** `window.pageYOffset || document.documentElement.scrollTop` */
  function WindowTop(v: Viewport): int {
    if v.pageYOffset != 0 then v.pageYOffset else v.scrollTop
  }

  /** `getBoundingClientRect().top` and `offsetHeight` of an element. */
  datatype Box = Box(rectTop: int, offsetHeight: int)

  /** The closed intervals [top, bottom] and [windowTop, windowBottom] meet. */
  predicate Overlaps(top: int, bottom: int, windowTop: int, windowBottom: int) {
    bottom >= windowTop && top <= windowBottom
  }

  /** Element `j` of a reveal list is on screen, in page coordinates. */
  predicate InView(boxes: seq<Box>, j: nat, windowTop: int, windowHeight: int)
    requires j < |boxes|
  {
    var top := boxes[j].rectTop + windowTop;
    Overlaps(top, top + boxes[j].offsetHeight, windowTop, windowTop + windowHeight)
  }

  /** `parseInt(element.getAttribute('data-delay')) || 0` */
  function RevealDelay(e: Element): int {
    OrDefault(ParseIntAttr(GetAttribute(e, "data-delay")), 0)
  }

  /** A missing, non-numeric or zero `data-delay` is no delay; the decimal
      text of a number is that number. */
  lemma RevealDelayDecodes(e: Element, d: int)
    ensures !HasAttribute(e, "data-delay") ==> RevealDelay(e) == 0
    ensures HasAttribute(e, "data-delay") && (forall i :: 0 <= i < |e.attrs["data-delay"]| ==> !IsDigit(e.attrs["data-delay"][i]))
      ==> RevealDelay(e) == 0
    ensures GetAttribute(e, "data-delay") == Some(IntToString(d)) ==> RevealDelay(e) == d
  {
    if !HasAttribute(e, "data-delay") {
      ParseIntMissing();
    } else {
      var a := e.attrs["data-delay"];
      if forall i :: 0 <= i < |a| ==> !IsDigit(a[i]) {
        ParseIntNoDigits(a);
      }
      if a == IntToString(d) {
        ParseIntRoundTrip(d);
      }
    }
  }

  datatype RevealList = FadeIn | SlideUp

  /** A pending `setTimeout` that will add `animate` to element `index` of `list`. */
  datatype Reveal = Reveal(list: RevealList, index: nat, delay: int)

  /** The `data-delay` of every element of a reveal list. */
  function Delays(es: seq<Element>): seq<int> {
    seq(|es|, j requires 0 <= j < |es| => RevealDelay(es[j]))
  }

  /** The timers one pass of `checkVisibility` starts for the first `n`
      elements of one reveal list, in document order, given their delays. */
  function Scheduled(list: RevealList, delays: seq<int>, boxes: seq<Box>, windowTop: int, windowHeight: int, n: nat): seq<Reveal>
    requires n <= |delays| == |boxes|
  {
    if n == 0 then []
    else if InView(boxes, n - 1, windowTop, windowHeight) then
      Scheduled(list, delays, boxes, windowTop, windowHeight, n - 1) + [Reveal(list, n - 1, delays[n - 1])]
    else
      Scheduled(list, delays, boxes, windowTop, windowHeight, n - 1)
  }

  /** Every timer one pass starts is for an element on screen, with that
      element's delay. */
  lemma {:induction false} ScheduledOnlyInView(list: RevealList, delays: seq<int>, boxes: seq<Box>, windowTop: int, windowHeight: int, n: nat)
    requires n <= |delays| == |boxes|
    ensures forall r :: r in Scheduled(list, delays, boxes, windowTop, windowHeight, n) ==>
      && r.list == list && r.index < n
      && InView(boxes, r.index, windowTop, windowHeight)
      && r.delay == delays[r.index]
  {
    if n > 0 {
      ScheduledOnlyInView(list, delays, boxes, windowTop, windowHeight, n - 1);
    }
  }

  /** Every element on screen gets a timer in the pass. */
  lemma {:induction false} ScheduledAllInView(list: RevealList, delays: seq<int>, boxes: seq<Box>, windowTop: int, windowHeight: int, n: nat)
    requires n <= |delays| == |boxes|
    ensures forall j :: 0 <= j < n && InView(boxes, j, windowTop, windowHeight) ==>
      Reveal(list, j, delays[j]) in Scheduled(list, delays, boxes, windowTop, windowHeight, n)
  {
    if n > 0 {
      ScheduledAllInView(list, delays, boxes, windowTop, windowHeight, n - 1);
      var s0 := Scheduled(list, delays, boxes, windowTop, windowHeight, n - 1);
      if InView(boxes, n - 1, windowTop, windowHeight) {
        var last := Reveal(list, n - 1, delays[n - 1]);
        assert (s0 + [last])[|s0|] == last;
        assert forall r :: r in s0 ==> r in s0 + [last];
      }
    }
  }

  predicate IndicesIncrease(s: seq<Reveal>) {
    forall a, b :: 0 <= a < b < |s| ==> s[a].index < s[b].index
  }

  /** The timers of one pass are in document order, so no element gets two. */
  lemma {:induction false} ScheduledInOrder(list: RevealList, delays: seq<int>, boxes: seq<Box>, windowTop: int, windowHeight: int, n: nat)
    requires n <= |delays| == |boxes|
    ensures IndicesIncrease(Scheduled(list, delays, boxes, windowTop, windowHeight, n))
  {
    if n > 0 {
      var s0 := Scheduled(list, delays, boxes, windowTop, windowHeight, n - 1);
      ScheduledInOrder(list, delays, boxes, windowTop, windowHeight, n - 1);
      ScheduledOnlyInView(list, delays, boxes, windowTop, windowHeight, n - 1);
      if InView(boxes, n - 1, windowTop, windowHeight) {
        var last := Reveal(list, n - 1, delays[n - 1]);
        forall a | 0 <= a < |s0| ensures s0[a].index < last.index {
          assert s0[a] in s0;
        }
        AppendIncreasing(s0, last);
      }
    }
  }

  lemma AppendIncreasing(s: seq<Reveal>, last: Reveal)
    requires IndicesIncrease(s)
    requires forall a :: 0 <= a < |s| ==> s[a].index < last.index
    ensures IndicesIncrease(s + [last])
  {
    var t := s + [last];
    forall a, b | 0 <= a < b < |t| ensures t[a].index < t[b].index {
      if b < |s| {
        assert t[a] == s[a] && t[b] == s[b];
      } else {
        assert t[a] == s[a] && t[b] == last;
      }
    }
  }

  lemma ScheduledStep(list: RevealList, delays: seq<int>, boxes: seq<Box>, windowTop: int, windowHeight: int, n: nat)
    requires n < |delays| == |boxes|
    ensures Scheduled(list, delays, boxes, windowTop, windowHeight, n + 1) ==
      if InView(boxes, n, windowTop, windowHeight)
      then Scheduled(list, delays, boxes, windowTop, windowHeight, n) + [Reveal(list, n, delays[n])]
      else Scheduled(list, delays, boxes, windowTop, windowHeight, n)
  {
  }

  /** An element on screen adds its timer, with its own delay, to the pass. */
  lemma ScheduledAdds(list: RevealList, es: seq<Element>, boxes: seq<Box>, windowTop: int, windowHeight: int, n: nat)
    requires n < |es| == |boxes| && InView(boxes, n, windowTop, windowHeight)
    ensures Scheduled(list, Delays(es), boxes, windowTop, windowHeight, n + 1) ==
      Scheduled(list, Delays(es), boxes, windowTop, windowHeight, n) + [Reveal(list, n, RevealDelay(es[n]))]
  {
    ScheduledStep(list, Delays(es), boxes, windowTop, windowHeight, n);
  }

  /** An element off screen adds nothing to the pass. */
  lemma ScheduledSkips(list: RevealList, es: seq<Element>, boxes: seq<Box>, windowTop: int, windowHeight: int, n: nat)
    requires n < |es| == |boxes| && !InView(boxes, n, windowTop, windowHeight)
    ensures Scheduled(list, Delays(es), boxes, windowTop, windowHeight, n + 1) ==
      Scheduled(list, Delays(es), boxes, windowTop, windowHeight, n)
  {
    ScheduledStep(list, Delays(es), boxes, windowTop, windowHeight, n);
  }

  /** The `forEach` over one reveal list inside `checkVisibility`. */
  method ScheduleVisible(list: RevealList, es: seq<Element>, boxes: seq<Box>, windowTop: int, windowHeight: int)
    returns (due: seq<Reveal>)
    requires |es| == |boxes|
    ensures due == Scheduled(list, Delays(es), boxes, windowTop, windowHeight, |es|)
  {
    due := [];
    var i := 0;
    while i < |es|
      invariant 0 <= i <= |es|
      invariant due == Scheduled(list, Delays(es), boxes, windowTop, windowHeight, i)
    {
      var elementTop := boxes[i].rectTop + windowTop;
      var elementBottom := elementTop + boxes[i].offsetHeight;
      var delay := RevealDelay(es[i]);
      if elementBottom >= windowTop && elementTop <= windowTop + windowHeight {
        ScheduledAdds(list, es, boxes, windowTop, windowHeight, i);
        due := due + [Reveal(list, i, delay)];
      } else {
        ScheduledSkips(list, es, boxes, windowTop, windowHeight, i);
      }
      i := i + 1;
    }
  }

  // ---------------------------------------------------------------------
  // Stats

  /** A stat block is above the bottom of the window: `statTop < windowTop + windowHeight`. */
  predicate StatInView(rectTops: seq<int>, j: nat, windowTop: int, windowHeight: int)
    requires j < |rectTops|
  {
    rectTops[j] + windowTop < windowTop + windowHeight
  }

  // ---------------------------------------------------------------------
  // The page, acting in place

  /** The loader's life: nothing scheduled (a missing element, or before
      `init`), waiting for the 2.5 s timer, hidden, and removed from the DOM. */
  datatype LoaderPhase = Idle | Waiting | Revealed | Removed

  /** The landing page and the script's closure state. One DOM element may be
      both a `.batman-stat` and a `[data-batman-slide-up]`; it is then held
      twice, once in `stats` and once in `slideUps`. The two copies are touched
      on disjoint properties (`style.animation` by the stats pulse, the
      `animate` class by the reveal), so each copy's proved value is the
      element's value for the property it carries. Likewise an element with both
      `data-batman-fade-in` and `data-batman-slide-up` is held once in `fadeIns`
      and once in `slideUps`, and each copy gains `animate` only when its own
      reveal timer fires, whereas the real element has it after the first. */
  class BatmanPage {
    // the elements found by id and selector
    var loader: Option<Element>
    var content: Option<Element>
    const quotesContainer: bool
    var quotes: seq<Element>
    var fadeIns: seq<Element>
    var slideUps: seq<Element>
    var stats: seq<Element>

    // closure state of the script
    var phase: LoaderPhase
    var scrollWatching: bool      // `initScrollAnimations` has run
    var rotating: bool            // `initQuoteRotation` started the interval
    var rotation: nat             // `currentQuoteIndex`
    var keyboard: nat             // `currentIndex` of the key handler
    var hasAnimated: bool
    var started: bool             // `init` has run
    var pending: seq<Reveal>      // reveal timers not yet fired

    ghost predicate Valid()
      reads this
    {
      && (rotating ==> |quotes| > 0 && rotation < |quotes|)
      && (|quotes| > 0 ==> keyboard < |quotes|)
      && (phase != Idle ==> loader.Some? && content.Some?)
      && (forall r :: r in pending ==> r.index < |RevealTargets(r.list)|)
    }

    function RevealTargets(list: RevealList): seq<Element>
      reads this
    {
      if list == FadeIn then fadeIns else slideUps
    }

    constructor (loader: Option<Element>, content: Option<Element>, quotesContainer: bool,
                 quotes: seq<Element>, fadeIns: seq<Element>, slideUps: seq<Element>, stats: seq<Element>)
      ensures Valid()
      ensures this.loader == loader && this.content == content && this.quotesContainer == quotesContainer
      ensures this.quotes == quotes && this.fadeIns == fadeIns && this.slideUps == slideUps && this.stats == stats
      ensures phase == Idle && !scrollWatching && !rotating && !started && !hasAnimated
      ensures rotation == 0 && keyboard == 0 && pending == []
    {
      this.loader, this.content, this.quotesContainer := loader, content, quotesContainer;
      this.quotes, this.fadeIns, this.slideUps, this.stats := quotes, fadeIns, slideUps, stats;
      phase, scrollWatching, rotating, started, hasAnimated := Idle, false, false, false, false;
      rotation, keyboard, pending := 0, 0, [];
    }

    /** `init()`: the loading screen, the stats counter with its first check,
        and the key handler. */
    method Init(v: Viewport, statTops: seq<int>)
      requires Valid() && !started && |statTops| == |stats|
      modifies this`phase, this`started, this`keyboard, this`hasAnimated, this`stats
      ensures Valid() && started
      ensures phase == if loader.Some? && content.Some? then Waiting else old(phase)
      ensures keyboard == 0
      ensures var wt := WindowTop(v);
        && hasAnimated == (exists j :: 0 <= j < |statTops| && StatInView(statTops, j, wt, v.innerHeight))
        && |stats| == |old(stats)|
        && forall j :: 0 <= j < |stats| ==>
             stats[j] == if StatInView(statTops, j, wt, v.innerHeight) then SetStyle(old(stats)[j], "animation", PulseAnimation) else old(stats)[j]
    {
      InitLoadingScreen();
      started := true;
      hasAnimated := false;
      AnimateStats(v, statTops);
      keyboard := 0;
    }

    /** `initLoadingScreen`: does nothing unless both elements exist. */
    method InitLoadingScreen()
      requires Valid()
      modifies this`phase
      ensures Valid()
      ensures phase == if loader.Some? && content.Some? then Waiting else old(phase)
    {
      if loader.None? || content.None? {
        return;
      }
      phase := Waiting;
    }

    /** The 2.5 s loading timer: hide the loader, show the content, then start
        the scroll reveal (with its first check) and the quote rotation. */
    method LoadingTimerFired(v: Viewport, fadeBoxes: seq<Box>, slideBoxes: seq<Box>)
      requires Valid() && phase == Waiting
      requires |fadeBoxes| == |fadeIns| && |slideBoxes| == |slideUps|
      modifies this`loader, this`content, this`phase, this`scrollWatching, this`pending, this`rotating, this`rotation
      ensures Valid() && phase == Revealed && scrollWatching
      ensures loader == Some(AddClass(old(loader).value, HiddenClass))
      ensures content == Some(AddClass(old(content).value, VisibleClass))
      ensures var wt := WindowTop(v);
        pending == old(pending) + Scheduled(FadeIn, Delays(fadeIns), fadeBoxes, wt, v.innerHeight, |fadeIns|)
                                + Scheduled(SlideUp, Delays(slideUps), slideBoxes, wt, v.innerHeight, |slideUps|)
      ensures if quotesContainer && |quotes| > 0 then rotating && rotation == 0
              else rotating == old(rotating) && rotation == old(rotation)
    {
      loader := Some(AddClass(loader.value, HiddenClass));
      content := Some(AddClass(content.value, VisibleClass));
      phase := Revealed;
      scrollWatching := true;
      CheckVisibility(v, fadeBoxes, slideBoxes);
      InitQuoteRotation();
    }

    /** The 600 ms timer that takes the hidden loader out of the DOM. */
    method RemovalTimerFired()
      requires Valid() && phase == Revealed
      modifies this`phase
      ensures Valid() && phase == Removed
    {
      phase := Removed;
    }

    /** `checkVisibility`, run once by `initScrollAnimations` and again after
        each throttled scroll or resize. */
    method CheckVisibility(v: Viewport, fadeBoxes: seq<Box>, slideBoxes: seq<Box>)
      requires Valid() && scrollWatching
      requires |fadeBoxes| == |fadeIns| && |slideBoxes| == |slideUps|
      modifies this`pending
      ensures Valid()
      ensures var wt := WindowTop(v);
        pending == old(pending) + Scheduled(FadeIn, Delays(fadeIns), fadeBoxes, wt, v.innerHeight, |fadeIns|)
                                + Scheduled(SlideUp, Delays(slideUps), slideBoxes, wt, v.innerHeight, |slideUps|)
    {
      var windowTop := WindowTop(v);
      var fade := ScheduleVisible(FadeIn, fadeIns, fadeBoxes, windowTop, v.innerHeight);
      var slide := ScheduleVisible(SlideUp, slideUps, slideBoxes, windowTop, v.innerHeight);
      ScheduledOnlyInView(FadeIn, Delays(fadeIns), fadeBoxes, windowTop, v.innerHeight, |fadeIns|);
      ScheduledOnlyInView(SlideUp, Delays(slideUps), slideBoxes, windowTop, v.innerHeight, |slideUps|);
      pending := pending + fade + slide;
    }

    /** Pending reveal timer `t` fires: its element gets `animate`. No step
        ever removes `animate`. */
    method RevealTimerFired(t: nat)
      requires Valid() && t < |pending|
      modifies this`pending, this`fadeIns, this`slideUps
      ensures Valid()
      ensures pending == old(pending)[..t] + old(pending)[t + 1..]
      ensures var r := old(pending)[t];
        && RevealTargets(r.list) == old(RevealTargets(r.list))[r.index := AddClass(old(RevealTargets(r.list))[r.index], AnimateClass)]
        && (r.list == FadeIn ==> slideUps == old(slideUps))
        && (r.list == SlideUp ==> fadeIns == old(fadeIns))
    {
      var r := pending[t];
      if r.list == FadeIn {
        fadeIns := fadeIns[r.index := AddClass(fadeIns[r.index], AnimateClass)];
      } else {
        slideUps := slideUps[r.index := AddClass(slideUps[r.index], AnimateClass)];
      }
      assert forall x :: x in old(pending)[..t] + old(pending)[t + 1..] ==> x in old(pending);
      pending := pending[..t] + pending[t + 1..];
    }

    /** `initQuoteRotation`: starts the interval only when the container and
        at least one quote exist, with the index at 0. */
    method InitQuoteRotation()
      requires Valid()
      modifies this`rotating, this`rotation
      ensures Valid()
      ensures if quotesContainer && |quotes| > 0 then rotating && rotation == 0
              else rotating == old(rotating) && rotation == old(rotation)
    {
      if !quotesContainer || |quotes| == 0 {
        return;
      }
      rotation := 0;
      rotating := true;
    }

    /** `showNextQuote`, run by the 5 s interval. The key handler's counter is
        not touched. */
    method ShowNextQuote()
      requires Valid() && rotating
      modifies this`quotes, this`rotation
      ensures Valid() && |quotes| == |old(quotes)|
      ensures rotation == NextQuote(old(rotation), |quotes|)
      ensures quotes == MoveActive(old(quotes), old(rotation), rotation)
    {
      quotes := quotes[rotation := RemoveClass(quotes[rotation], ActiveClass)];
      rotation := (rotation + 1) % |quotes|;
      quotes := quotes[rotation := AddClass(quotes[rotation], ActiveClass)];
    }

    /** The `keydown` handler. With no quote on the page an arrow key makes
        the handler throw on `quotes[0].classList` before anything changes.
        The rotation counter is not touched. */
    method KeyDown(key: string) returns (threw: bool)
      requires Valid() && started
      modifies this`quotes, this`keyboard
      ensures Valid() && |quotes| == |old(quotes)|
      ensures threw <==> (key == "ArrowRight" || key == "ArrowLeft") && |old(quotes)| == 0
      ensures (key != "ArrowRight" && key != "ArrowLeft") || threw ==> quotes == old(quotes) && keyboard == old(keyboard)
      ensures (key == "ArrowRight" || key == "ArrowLeft") && !threw ==>
        && keyboard == (if key == "ArrowRight" then NextQuote(old(keyboard), |quotes|) else PrevQuote(old(keyboard), |quotes|))
        && quotes == MoveActive(old(quotes), old(keyboard), keyboard)
    {
      threw := false;
      if key == "ArrowRight" || key == "ArrowLeft" {
        if |quotes| == 0 {
          threw := true;
          return;
        }
        quotes := quotes[keyboard := RemoveClass(quotes[keyboard], ActiveClass)];
        if key == "ArrowRight" {
          keyboard := (keyboard + 1) % |quotes|;
        } else {
          keyboard := (keyboard - 1 + |quotes|) % |quotes|;
        }
        quotes := quotes[keyboard := AddClass(quotes[keyboard], ActiveClass)];
      }
    }

    /** `animateStats`, on load and on every scroll: once `hasAnimated` is set
        it does nothing; the call that sets it pulses every stat above the
        bottom of the window. */
    method AnimateStats(v: Viewport, statTops: seq<int>)
      requires Valid() && started && |statTops| == |stats|
      modifies this`hasAnimated, this`stats
      ensures Valid() && |stats| == |old(stats)|
      ensures old(hasAnimated) ==> hasAnimated && stats == old(stats)
      ensures !old(hasAnimated) ==> var wt := WindowTop(v);
        && hasAnimated == (exists j :: 0 <= j < |statTops| && StatInView(statTops, j, wt, v.innerHeight))
        && forall j :: 0 <= j < |stats| ==>
             stats[j] == if StatInView(statTops, j, wt, v.innerHeight) then SetStyle(old(stats)[j], "animation", PulseAnimation) else old(stats)[j]
    {
      if hasAnimated {
        return;
      }
      var windowHeight := v.innerHeight;
      var windowTop := WindowTop(v);
      var i := 0;
      while i < |stats|
        invariant 0 <= i <= |stats| == |old(stats)|
        invariant hasAnimated == (exists j :: 0 <= j < i && StatInView(statTops, j, windowTop, windowHeight))
        invariant forall j :: 0 <= j < |stats| ==>
          stats[j] == if j < i && StatInView(statTops, j, windowTop, windowHeight)
                      then SetStyle(old(stats)[j], "animation", PulseAnimation) else old(stats)[j]
      {
        var statTop := statTops[i] + windowTop;
        if statTop < windowTop + windowHeight {
          assert StatInView(statTops, i, windowTop, windowHeight);
          hasAnimated := true;
          stats := stats[i := SetStyle(stats[i], "animation", PulseAnimation)];
        }
        i := i + 1;
      }
    }
  }

  /** The two quote counters are independent: on a page of at least three
      quotes with quote 0 active, one rotation step activates quote 1 alone;
      ArrowLeft then moves from the keyboard's own index, still 0, to the last
      quote and leaves quote 1 active, so two quotes are active. */
  lemma CountersAreIndependent(qs: seq<Element>)
    requires |qs| >= 3 && OnlyActive(qs, 0)
    ensures var n := |qs|;
      var rotated := MoveActive(qs, 0, NextQuote(0, n));
      var keyed := MoveActive(rotated, 0, PrevQuote(0, n));
      && OnlyActive(rotated, 1)
      && ActiveClass in keyed[1].classes && ActiveClass in keyed[n - 1].classes
  {
    var n := |qs|;
    MoveActiveKeepsOne(qs, 0, 1);
    var rotated := MoveActive(qs, 0, 1);
    var keyed := MoveActive(rotated, 0, n - 1);
    assert keyed[1] == rotated[1];
  }
}
