/** The modern product cards: a star row rendered from each rating container's
    `data-rating`, quick-add buttons that post the card's product to the cart
    and settle again whatever the answer, colour swatches of which one per card
    is active, images promoted from `data-src` when they scroll into view,
    cards that animate in once, and the cart-count badges and cart component
    refreshed after a successful add. Requests are recorded and answered by
    later steps; intersection reports are inputs. */
module ModernProductCards {
  import opened Dom
  import opened JsNumbers
  import opened Cart

  // ---------------------------------------------------------------------
  // Star rating

  datatype Star = Full | Half | Empty

  /** `Math.trunc` */
  function Trunc(r: real): int {
    if r >= 0.0 then r.Floor else -((-r).Floor)
  }

  /** `r % 1`: the remainder takes the sign of the dividend. */
  function Rem1(r: real): (f: real)
    ensures r >= 0.0 ==> f == r - r.Floor as real && 0.0 <= f < 1.0
    ensures r < 0.0 ==> -1.0 < f <= 0.0
  {
    r - Trunc(r) as real
  }

  /** `Math.floor(rating)` */
  function FullStars(rating: real): int {
    rating.Floor
  }

  /** `rating % 1 >= 0.5` */
  predicate HasHalfStar(rating: real) {
    Rem1(rating) >= 0.5
  }

  /** `5 - fullStars - (hasHalfStar ? 1 : 0)`, which may be negative. */
  function EmptyStars(rating: real): int {
    5 - FullStars(rating) - (if HasHalfStar(rating) then 1 else 0)
  }

  /** `n` copies of a star; a `for` loop up to a negative bound runs no turn. */
  function Repeat(s: Star, n: int): (r: seq<Star>)
    ensures |r| == if n > 0 then n else 0
    ensures forall i :: 0 <= i < |r| ==> r[i] == s
  {
    if n <= 0 then [] else Repeat(s, n - 1) + [s]
  }

  /** The stars `generateStars` emits, in order. */
  function StarRow(rating: real): seq<Star> {
    Repeat(Full, FullStars(rating)) + (if HasHalfStar(rating) then [Half] else []) + Repeat(Empty, EmptyStars(rating))
  }

  /** `generateStars(rating)`: the full stars, the half star if the fraction
      is at least one half, then the empty stars. */
  method GenerateStars(rating: real) returns (stars: seq<Star>)
    ensures stars == StarRow(rating)
  {
    var fullStars := rating.Floor;
    var hasHalfStar := Rem1(rating) >= 0.5;
    var emptyStars := 5 - fullStars - (if hasHalfStar then 1 else 0);
    stars := [];
    var i := 0;
    while i < fullStars
      invariant 0 <= i <= if fullStars > 0 then fullStars else 0
      invariant stars == Repeat(Full, i)
    {
      stars := stars + [Full];
      i := i + 1;
    }
    assert stars == Repeat(Full, FullStars(rating));
    if hasHalfStar {
      stars := stars + [Half];
    }
    ghost var fullAndHalf := stars;
    i := 0;
    while i < emptyStars
      invariant 0 <= i <= if emptyStars > 0 then emptyStars else 0
      invariant stars == fullAndHalf + Repeat(Empty, i)
    {
      stars := stars + [Empty];
      i := i + 1;
    }
    assert Repeat(Empty, i) == Repeat(Empty, EmptyStars(rating));
  }

  /** For a rating in (0, 5] the row has exactly five stars: `floor(rating)`
      full ones, then a half star exactly when the fraction is at least one
      half, then empty ones. */
  lemma FiveStarsInRange(rating: real)
    requires 0.0 < rating <= 5.0
    ensures |StarRow(rating)| == 5
    ensures 0 <= FullStars(rating) <= 5
    ensures HasHalfStar(rating) <==> rating - FullStars(rating) as real >= 0.5
    ensures forall i :: 0 <= i < 5 ==>
      StarRow(rating)[i] == if i < FullStars(rating) then Full
                            else if i == FullStars(rating) && HasHalfStar(rating) then Half
                            else Empty
  {
    var f := FullStars(rating);
    if f == 5 {
      assert rating == 5.0;
      assert !HasHalfStar(rating);
    }
    var h: seq<Star> := if HasHalfStar(rating) then [Half] else [];
    var row := StarRow(rating);
    assert row == Repeat(Full, f) + h + Repeat(Empty, EmptyStars(rating));
    forall i | 0 <= i < 5
      ensures row[i] == if i < f then Full else if i == f && HasHalfStar(rating) then Half else Empty
    {
      if i < f {
        assert row[i] == Repeat(Full, f)[i];
      } else if i < f + |h| {
        assert row[i] == h[i - f];
      } else {
        assert row[i] == Repeat(Empty, EmptyStars(rating))[i - f - |h|];
      }
    }
  }

  /** When full stars and the half star already exceed five, the empty count is
      negative, no empty star is emitted and the row is longer than five. */
  lemma StarsOverflow(rating: real)
    requires FullStars(rating) + (if HasHalfStar(rating) then 1 else 0) > 5
    ensures EmptyStars(rating) < 0
    ensures Empty !in StarRow(rating)
    ensures |StarRow(rating)| == FullStars(rating) + (if HasHalfStar(rating) then 1 else 0) > 5
  {
    var h: seq<Star> := if HasHalfStar(rating) then [Half] else [];
    assert StarRow(rating) == Repeat(Full, FullStars(rating)) + h;
  }

  /** A negative rating gives no full star and no half star, and more than five
      empty stars. */
  lemma NegativeRatingEmpty(rating: real)
    requires rating < 0.0
    ensures |StarRow(rating)| == EmptyStars(rating) > 5
    ensures forall i :: 0 <= i < |StarRow(rating)| ==> StarRow(rating)[i] == Empty
  {
    assert !HasHalfStar(rating);
    assert StarRow(rating) == Repeat(Empty, EmptyStars(rating));
  }

  // ---------------------------------------------------------------------
  // Rating containers

  /** What `renderRatings` writes into a container: the star row and the
      `(count)` suffix, if any. */
  datatype Rendered = Rendered(stars: seq<Star>, count: Option<int>)

  /** A `.modern-product-card__rating[data-rating]` container: the element
      (with its `data-count`), `parseFloat` of its `data-rating` (None for
      NaN), and the markup written into it, None while it still holds the
      markup it was served with. */
  datatype RatingBox = RatingBox(el: Element, rating: Option<real>, shown: Option<Rendered>)

  /** `parseInt(container.dataset.count) || 0` */
  function RatingCount(el: Element): int {
    OrDefault(ParseIntAttr(GetAttribute(el, "data-count")), 0)
  }

  /** One turn of the `forEach` of `renderRatings`. */
  function RenderBox(b: RatingBox): RatingBox {
    if b.rating.Some? && b.rating.value > 0.0 then
      var count := RatingCount(b.el);
      b.(shown := Some(Rendered(StarRow(b.rating.value), if count > 0 then Some(count) else None)))
    else b
  }

  /** A missing count decodes as 0, and the decimal text of a positive `n`
      as `n`. */
  lemma RatingCountDecodes(el: Element)
    ensures !HasAttribute(el, "data-count") ==> RatingCount(el) == 0
    ensures forall n :: n > 0 && GetAttribute(el, "data-count") == Some(IntToString(n)) ==> RatingCount(el) == n
  {
    if !HasAttribute(el, "data-count") {
      ParseIntMissing();
    }
    forall n | n > 0 && GetAttribute(el, "data-count") == Some(IntToString(n))
      ensures RatingCount(el) == n
    {
      ParseIntRoundTrip(n);
    }
  }

  /** A container is rewritten only when its rating is a positive number; the
      suffix is there exactly when the decoded count is positive, and a
      missing, non-numeric or zero count never shows one. */
  lemma RenderBoxRules(b: RatingBox)
    ensures RenderBox(b).el == b.el && RenderBox(b).rating == b.rating
    ensures RenderBox(b) != b ==> b.rating.Some? && b.rating.value > 0.0
    ensures b.rating.Some? && b.rating.value > 0.0 ==>
      && RenderBox(b).shown.Some?
      && RenderBox(b).shown.value.stars == StarRow(b.rating.value)
      && (RenderBox(b).shown.value.count.Some? <==> RatingCount(b.el) > 0)
    ensures !HasAttribute(b.el, "data-count") ==> RenderBox(b).shown == b.shown || RenderBox(b).shown.value.count.None?
    ensures forall n :: n > 0 && GetAttribute(b.el, "data-count") == Some(IntToString(n)) && b.rating.Some? && b.rating.value > 0.0 ==>
      RenderBox(b).shown.value.count == Some(n)
  {
    RatingCountDecodes(b.el);
  }

  class ProductRating {
    var boxes: seq<RatingBox>

    constructor (boxes: seq<RatingBox>)
      ensures this.boxes == boxes
    {
      this.boxes := boxes;
    }

    /** `renderRatings`: every container rendered in place. */
    method RenderRatings()
      modifies this`boxes
      ensures |boxes| == |old(boxes)|
      ensures forall i :: 0 <= i < |boxes| ==> boxes[i] == RenderBox(old(boxes)[i])
    {
      var i := 0;
      while i < |boxes|
        invariant 0 <= i <= |boxes| == |old(boxes)|
        invariant forall j :: 0 <= j < |boxes| ==> boxes[j] == if j < i then RenderBox(old(boxes)[j]) else old(boxes)[j]
      {
        var container := boxes[i];
        var rating := container.rating;
        var count := RatingCount(container.el);
        if rating.Some? && rating.value > 0.0 {
          var stars := GenerateStars(rating.value);
          boxes := boxes[i := container.(shown := Some(Rendered(stars, if count > 0 then Some(count) else None)))];
        }
        assert boxes[i] == RenderBox(old(boxes)[i]);
        i := i + 1;
      }
    }
  }

  // ---------------------------------------------------------------------
  // Quick add button

  const LoadingClass := "is-loading"
  const SwatchActive := "active"
  const LoadedClass := "loaded"
  const WillAnimate := "will-animate"
  const AnimateIn := "animate-in"

  /** `triggerCartDrawer`: the drawer if it can be opened, else the
      notification if it can, else nothing; never both. */
  method TriggerCartDrawer(drawer: Component, notification: Component) returns (t: CartTarget)
    ensures t == OpenDrawer <==> CanOpen(drawer)
    ensures t == OpenNotification <==> !CanOpen(drawer) && CanOpen(notification)
    ensures t == NoTarget <==> !CanOpen(drawer) && !CanOpen(notification)
  {
    if drawer != Missing && CanOpen(drawer) {
      t := OpenDrawer;
    } else if notification != Missing && CanOpen(notification) {
      t := OpenNotification;
    } else {
      t := NoTarget;
    }
  }

  // ---------------------------------------------------------------------
  // Colour swatches

  /** A swatch click: every swatch of the clicked swatch's card loses `active`,
      then the clicked one gains it. A swatch outside any card makes the
      handler throw before it changes anything. */
  function SwatchClicked(sw: seq<Element>, card: seq<Option<nat>>, k: nat): (r: seq<Element>)
    requires |card| == |sw| && k < |sw|
    ensures |r| == |sw|
  {
    if card[k].None? then sw
    else
      seq(|sw|, j requires 0 <= j < |sw| =>
        if j == k then AddClass(RemoveClass(sw[j], SwatchActive), SwatchActive)
        else if card[j] == card[k] then RemoveClass(sw[j], SwatchActive)
        else sw[j])
  }

  /** After a click inside a card, the clicked swatch is the only active one of
      that card, and swatches of other cards and the rest of every swatch's
      classes are unchanged. */
  lemma SwatchExclusive(sw: seq<Element>, card: seq<Option<nat>>, k: nat)
    requires |card| == |sw| && k < |sw| && card[k].Some?
    ensures var r := SwatchClicked(sw, card, k);
      && (forall j :: 0 <= j < |sw| && card[j] == card[k] ==> (SwatchActive in r[j].classes <==> j == k))
      && (forall j :: 0 <= j < |sw| && card[j] != card[k] ==> r[j] == sw[j])
      && (forall j :: 0 <= j < |sw| ==> r[j].classes - {SwatchActive} == sw[j].classes - {SwatchActive})
  {
    var r := SwatchClicked(sw, card, k);
    forall j | 0 <= j < |sw| ensures r[j].classes - {SwatchActive} == sw[j].classes - {SwatchActive} {
      if j == k {
        assert r[j].classes == sw[j].classes - {SwatchActive} + {SwatchActive};
      }
    }
  }

  // ---------------------------------------------------------------------
  // Intersection callbacks

  /** One report of an `IntersectionObserver`: the observed element's position
      in its list and whether it intersects. */
  datatype Entry = Entry(target: nat, isIntersecting: bool)

  datatype Observer = LazyImages | CardAnimations

  /** A list of observed elements and the positions still observed. */
  datatype Watch = Watch(targets: seq<Element>, watched: set<nat>)

  /** The lazy-load promotion: a truthy `data-src` becomes `src` and is
      removed; the image gets `loaded` in any case. */
  function Promote(img: Element): Element {
    var src := GetAttribute(img, "data-src");
    var moved := if Truthy(src) then RemoveAttribute(SetAttribute(img, "src", src.value), "data-src") else img;
    AddClass(moved, LoadedClass)
  }

  /** What a callback does to an intersecting target. */
  function Effect(o: Observer, e: Element): Element {
    match o
    case LazyImages => Promote(e)
    case CardAnimations => AddClass(e, AnimateIn)
  }

  predicate InRange(w: Watch, entries: seq<Entry>) {
    forall i :: 0 <= i < |entries| ==> entries[i].target < |w.targets|
  }

  /** The callback over a batch of entries, in order: an intersecting target
      gets the observer's effect and is unobserved; the others are left alone. */
  function Delivered(o: Observer, w: Watch, entries: seq<Entry>): (r: Watch)
    requires InRange(w, entries)
    ensures |r.targets| == |w.targets|
    decreases |entries|
  {
    if |entries| == 0 then w
    else
      var before := Delivered(o, w, entries[..|entries| - 1]);
      var e := entries[|entries| - 1];
      if e.isIntersecting then
        Watch(before.targets[e.target := Effect(o, before.targets[e.target])], before.watched - {e.target})
      else before
  }

  /** Promoting an image is idempotent: `data-src` is gone after the first
      time, so a second report changes nothing. */
  lemma PromoteIdempotent(img: Element)
    ensures Promote(Promote(img)) == Promote(img)
  {
    var p := Promote(img);
    assert !HasAttribute(p, "data-src") || !Truthy(GetAttribute(img, "data-src"));
    if Truthy(GetAttribute(img, "data-src")) {
      assert "data-src" !in p.attrs;
    }
    assert p.classes + {LoadedClass} == p.classes;
  }

  /** An image with a non-empty `data-src` gets that value as `src` and loses
      `data-src`; one without keeps its attributes; both get `loaded`. */
  lemma PromoteMoves(img: Element)
    ensures LoadedClass in Promote(img).classes
    ensures Truthy(GetAttribute(img, "data-src")) ==>
      && GetAttribute(Promote(img), "src") == GetAttribute(img, "data-src")
      && !HasAttribute(Promote(img), "data-src")
      && Promote(img).attrs == (img.attrs - {"data-src"})["src" := img.attrs["data-src"]]
    ensures !Truthy(GetAttribute(img, "data-src")) ==> Promote(img).attrs == img.attrs
  {
    if Truthy(GetAttribute(img, "data-src")) {
      var v := img.attrs["data-src"];
      assert img.attrs["src" := v] - {"data-src"} == (img.attrs - {"data-src"})["src" := v];
    }
  }

  /** The targets of the intersecting reports of a batch. */
  function Hits(entries: seq<Entry>): set<nat> {
    set i | 0 <= i < |entries| && entries[i].isIntersecting :: entries[i].target
  }

  /** A reported target ends up unobserved exactly when some report for it
      intersected; targets never reported keep their element and their
      observation. */
  lemma {:induction false} DeliveredUnobserves(o: Observer, w: Watch, entries: seq<Entry>)
    requires InRange(w, entries)
    ensures var r := Delivered(o, w, entries);
      && r.watched == w.watched - Hits(entries)
      && forall t :: 0 <= t < |w.targets| && (forall i :: 0 <= i < |entries| ==> entries[i].target != t) ==>
           r.targets[t] == w.targets[t]
    decreases |entries|
  {
    if |entries| > 0 {
      var init := entries[..|entries| - 1];
      DeliveredUnobserves(o, w, init);
      var e := entries[|entries| - 1];
      if e.isIntersecting {
        assert Hits(entries) == Hits(init) + {e.target};
      } else {
        assert Hits(entries) == Hits(init);
      }
    }
  }

  /** A second report for an element already handled changes nothing. */
  lemma EffectIdempotent(o: Observer, e: Element)
    ensures Effect(o, Effect(o, e)) == Effect(o, e)
  {
    match o
    case LazyImages => PromoteIdempotent(e);
    case CardAnimations => assert e.classes + {AnimateIn} + {AnimateIn} == e.classes + {AnimateIn};
  }

  /** After a batch, every element with an intersecting report carries the
      callback's effect (promoted, or `animate-in`), and every other element
      is as it was. */
  lemma {:induction false} DeliveredEffect(o: Observer, w: Watch, entries: seq<Entry>, t: nat)
    requires InRange(w, entries) && t < |w.targets|
    ensures Delivered(o, w, entries).targets[t] == if t in Hits(entries) then Effect(o, w.targets[t]) else w.targets[t]
    decreases |entries|
  {
    if |entries| > 0 {
      var init := entries[..|entries| - 1];
      var e := entries[|entries| - 1];
      DeliveredEffect(o, w, init, t);
      if e.isIntersecting {
        assert Hits(entries) == Hits(init) + {e.target};
        if e.target == t && t in Hits(init) {
          EffectIdempotent(o, w.targets[t]);
        }
      } else {
        assert Hits(entries) == Hits(init);
      }
    }
  }

  // ---------------------------------------------------------------------
  // The page

  /** The positions of a list of `n` elements. */
  function Positions(n: nat): (s: set<nat>)
    ensures forall i: nat :: i in s <==> i < n
  {
    if n == 0 then {} else Positions(n - 1) + {n - 1}
  }

  class ModernProductCards {
    var cards: seq<Element>
    var addButtons: seq<Element>
    const addButtonCard: seq<Option<nat>>   // `closest('.modern-product-card')` of each button
    var swatches: seq<Element>
    const swatchCard: seq<Option<nat>>      // `closest('.modern-product-card')` of each swatch
    var images: seq<Element>                // `.modern-product-card__image` elements
    var badges: seq<Element>                // `[data-cart-count]` elements

    var ready: bool                         // `init` found cards and wired the handlers
    var observing: bool                     // both observers exist
    var watchedImages: set<nat>
    var watchedCards: set<nat>

    var requests: seq<AddRequest>           // every add request, in order
    var open: set<nat>                      // add requests not yet answered
    var countRequests: nat                  // `GET /cart.js` requests issued
    var countOpen: nat                      // of those, not yet answered
    var targets: seq<CartTarget>            // the component opened after each successful add
    var updates: seq<int>                   // `cart:updated` events, with their `item_count`

    ghost predicate Valid()
      reads this
    {
      && |addButtonCard| == |addButtons| && |swatchCard| == |swatches|
      && (forall b :: 0 <= b < |addButtonCard| && addButtonCard[b].Some? ==> addButtonCard[b].value < |cards|)
      && (forall r :: r in open ==> r < |requests|)
      && (forall r :: 0 <= r < |requests| ==> requests[r].button < |addButtons|)
      && countOpen <= countRequests
    }

    constructor (cards: seq<Element>, addButtons: seq<Element>, addButtonCard: seq<Option<nat>>,
                 swatches: seq<Element>, swatchCard: seq<Option<nat>>, images: seq<Element>, badges: seq<Element>)
      requires |addButtonCard| == |addButtons| && |swatchCard| == |swatches|
      requires forall b :: 0 <= b < |addButtonCard| && addButtonCard[b].Some? ==> addButtonCard[b].value < |cards|
      ensures Valid()
      ensures this.cards == cards && this.addButtons == addButtons && this.addButtonCard == addButtonCard
      ensures this.swatches == swatches && this.swatchCard == swatchCard && this.images == images && this.badges == badges
      ensures !ready && !observing && watchedImages == {} && watchedCards == {}
      ensures requests == [] && open == {} && countRequests == 0 && countOpen == 0 && targets == [] && updates == []
    {
      this.cards, this.addButtons, this.addButtonCard := cards, addButtons, addButtonCard;
      this.swatches, this.swatchCard, this.images, this.badges := swatches, swatchCard, images, badges;
      ready, observing, watchedImages, watchedCards := false, false, {}, {};
      requests, open, countRequests, countOpen, targets, updates := [], {}, 0, 0, [], [];
    }

    /** `init`: nothing without cards; otherwise the handlers are wired and,
        where `IntersectionObserver` exists, every image with a `data-src`
        attribute is observed and every card is marked `will-animate` and
        observed. */
    method Init(observerSupported: bool)
      requires Valid() && !ready
      modifies this`ready, this`observing, this`watchedImages, this`cards, this`watchedCards
      ensures Valid()
      ensures ready <==> |old(cards)| > 0
      ensures observing <==> ready && observerSupported
      ensures observing ==>
        && watchedImages == (set i | 0 <= i < |images| && HasAttribute(images[i], "data-src"))
        && watchedCards == Positions(|cards|)
        && |cards| == |old(cards)|
        && forall i :: 0 <= i < |cards| ==> cards[i] == AddClass(old(cards)[i], WillAnimate)
      ensures !observing ==> cards == old(cards) && watchedImages == old(watchedImages) && watchedCards == old(watchedCards)
    {
      observing := false;
      if |cards| == 0 {
        return;
      }
      ready := true;
      if observerSupported {
        watchedImages := set i | 0 <= i < |images| && HasAttribute(images[i], "data-src");
        var i := 0;
        while i < |cards|
          modifies this`cards
          invariant 0 <= i <= |cards| == |old(cards)|
          invariant forall j :: 0 <= j < |cards| ==> cards[j] == if j < i then AddClass(old(cards)[j], WillAnimate) else old(cards)[j]
        {
          cards := cards[i := AddClass(cards[i], WillAnimate)];
          i := i + 1;
        }
        watchedCards := Positions(|cards|);
        observing := true;
      }
    }

    /** A click on quick-add button `k`. A button outside a card makes the
        handler throw; a card without a truthy `data-product-id` stops it;
        otherwise the button is set loading and `{id, quantity: 1}` is
        posted. A disabled button receives no click. */
    method QuickAddClick(k: nat)
      requires Valid() && ready && k < |addButtons| && !addButtons[k].disabled
      modifies this`addButtons, this`requests, this`open
      ensures Valid()
      ensures var id := if addButtonCard[k].Some? then GetAttribute(cards[addButtonCard[k].value], "data-product-id") else None;
        if Truthy(id) then
          && addButtons == old(addButtons)[k := Busy(old(addButtons)[k], LoadingClass)]
          && requests == old(requests) + [AddRequest(k, Single(LineItem(id.value, 1)))]
          && open == old(open) + {|old(requests)|}
        else
          addButtons == old(addButtons) && requests == old(requests) && open == old(open)
    {
      var card := addButtonCard[k];
      if card.None? {
        return;
      }
      var productId := GetAttribute(cards[card.value], "data-product-id");
      if !Truthy(productId) {
        return;
      }
      addButtons := addButtons[k := AddClass(addButtons[k], LoadingClass)];
      addButtons := addButtons[k := addButtons[k].(disabled := true)];
      requests := requests + [AddRequest(k, Single(LineItem(productId.value, 1)))];
      open := open + {|requests| - 1};
    }

    /** The answer to add request `r`, `ok` when the response was ok and its
        JSON parsed. On success a count refresh is requested and the cart
        component chosen; in both cases the button settles. */
    method AddToCartAnswered(r: nat, ok: bool, drawer: Component, notification: Component)
      requires Valid() && r in open
      modifies this`addButtons, this`open, this`countRequests, this`countOpen, this`targets
      ensures Valid()
      ensures var b := requests[r].button;
        addButtons == old(addButtons)[b := Idle(old(addButtons)[b], LoadingClass)]
      ensures open == old(open) - {r}
      ensures ok ==>
        && countRequests == old(countRequests) + 1 && countOpen == old(countOpen) + 1
        && |targets| == |old(targets)| + 1 && targets[..|old(targets)|] == old(targets)
        && (targets[|old(targets)|] == OpenDrawer <==> CanOpen(drawer))
        && (targets[|old(targets)|] == OpenNotification <==> !CanOpen(drawer) && CanOpen(notification))
        && (targets[|old(targets)|] == NoTarget <==> !CanOpen(drawer) && !CanOpen(notification))
      ensures !ok ==> countRequests == old(countRequests) && countOpen == old(countOpen) && targets == old(targets)
    {
      var button := requests[r].button;
      if ok {
        countRequests := countRequests + 1;
        countOpen := countOpen + 1;
        var t := TriggerCartDrawer(drawer, notification);
        targets := targets + [t];
      }
      addButtons := addButtons[button := RemoveClass(addButtons[button], LoadingClass)];
      addButtons := addButtons[button := addButtons[button].(disabled := false)];
      open := open - {r};
    }

    /** The answer to one `GET /cart.js`: None when the request or its JSON
        failed, which changes nothing; otherwise every badge shows the item
        count and one `cart:updated` is dispatched. */
    method CartCountAnswered(itemCount: Option<int>)
      requires Valid() && countOpen > 0
      modifies this`badges, this`countOpen, this`updates
      ensures Valid() && countOpen == old(countOpen) - 1
      ensures itemCount.None? ==> badges == old(badges) && updates == old(updates)
      ensures itemCount.Some? ==>
        && updates == old(updates) + [itemCount.value]
        && |badges| == |old(badges)|
        && forall i :: 0 <= i < |badges| ==> badges[i] == old(badges)[i].(text := BadgeText(itemCount.value))
    {
      countOpen := countOpen - 1;
      if itemCount.None? {
        return;
      }
      var i := 0;
      while i < |badges|
        modifies this`badges
        invariant 0 <= i <= |badges| == |old(badges)|
        invariant forall j :: 0 <= j < |badges| ==>
          badges[j] == if j < i then old(badges)[j].(text := BadgeText(itemCount.value)) else old(badges)[j]
      {
        badges := badges[i := badges[i].(text := IntToString(itemCount.value))];
        i := i + 1;
      }
      updates := updates + [itemCount.value];
    }

    /** A click on swatch `k`. */
    method SwatchClick(k: nat)
      requires Valid() && ready && k < |swatches|
      modifies this`swatches
      ensures swatches == SwatchClicked(old(swatches), swatchCard, k)
      ensures Valid()
    {
      var card := swatchCard[k];
      if card.None? {
        return;
      }
      var i := 0;
      while i < |swatches|
        invariant 0 <= i <= |swatches| == |old(swatches)|
        invariant forall j :: 0 <= j < |swatches| ==>
          swatches[j] == if j < i && swatchCard[j] == card then RemoveClass(old(swatches)[j], SwatchActive) else old(swatches)[j]
      {
        if swatchCard[i] == card {
          swatches := swatches[i := RemoveClass(swatches[i], SwatchActive)];
        }
        i := i + 1;
      }
      swatches := swatches[k := AddClass(swatches[k], SwatchActive)];
    }

    /** The lazy-load observer's callback. */
    method ImagesIntersect(entries: seq<Entry>)
      requires Valid() && observing && InRange(Watch(images, watchedImages), entries)
      requires forall i :: 0 <= i < |entries| ==> entries[i].target in watchedImages
      modifies this`images, this`watchedImages
      ensures Valid()
      ensures Watch(images, watchedImages) == Delivered(LazyImages, old(Watch(images, watchedImages)), entries)
    {
      var i := 0;
      while i < |entries|
        invariant 0 <= i <= |entries| && |images| == |old(images)|
        invariant Watch(images, watchedImages) == Delivered(LazyImages, old(Watch(images, watchedImages)), entries[..i])
      {
        var entry := entries[i];
        assert entries[..i + 1][..i] == entries[..i];
        if entry.isIntersecting {
          var image := images[entry.target];
          var src := GetAttribute(image, "data-src");
          if Truthy(src) {
            image := SetAttribute(image, "src", src.value);
            image := RemoveAttribute(image, "data-src");
          }
          image := AddClass(image, LoadedClass);
          images := images[entry.target := image];
          watchedImages := watchedImages - {entry.target};
        }
        i := i + 1;
      }
      assert entries[..|entries|] == entries;
    }

    /** The animation observer's callback. */
    method CardsIntersect(entries: seq<Entry>)
      requires Valid() && observing && InRange(Watch(cards, watchedCards), entries)
      requires forall i :: 0 <= i < |entries| ==> entries[i].target in watchedCards
      modifies this`cards, this`watchedCards
      ensures Valid()
      ensures Watch(cards, watchedCards) == Delivered(CardAnimations, old(Watch(cards, watchedCards)), entries)
    {
      var i := 0;
      while i < |entries|
        invariant 0 <= i <= |entries| && |cards| == |old(cards)|
        invariant Watch(cards, watchedCards) == Delivered(CardAnimations, old(Watch(cards, watchedCards)), entries[..i])
      {
        var entry := entries[i];
        assert entries[..i + 1][..i] == entries[..i];
        if entry.isIntersecting {
          cards := cards[entry.target := AddClass(cards[entry.target], AnimateIn)];
          watchedCards := watchedCards - {entry.target};
        }
        i := i + 1;
      }
      assert entries[..|entries|] == entries;
    }
  }
}
