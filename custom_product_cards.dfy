/** The custom product cards: quick actions that add the button's variant to
    the cart or open the product page, a hover swap between a card's primary
    and secondary image, focusable actions activated by Enter and Space, and
    the cart-count badges and cart component refreshed after a successful
    add. Requests are recorded and answered by later steps; navigation is
    recorded as the URL chosen. */
module CustomProductCards {
  import opened Dom
  import opened JsNumbers
  import opened Cart

  const CartAction := "custom-quick-action--cart"
  const ViewAction := "custom-quick-action--view"
  const QuickAction := "custom-quick-action"
  const LoadingClass := "loading"
  const HiddenClass := "hidden"

  /** `openCartDrawer`: the drawer if it can be opened, else the notification
      if it can, else a `cart:updated` event; exactly one of the three. */
  method OpenCartDrawer(drawer: Component, notification: Component) returns (t: CartTarget)
    ensures t != NoTarget
    ensures t == OpenDrawer <==> CanOpen(drawer)
    ensures t == OpenNotification <==> !CanOpen(drawer) && CanOpen(notification)
    ensures t == DispatchUpdated <==> !CanOpen(drawer) && !CanOpen(notification)
  {
    if drawer != Missing && CanOpen(drawer) {
      return OpenDrawer;
    }
    if notification != Missing && CanOpen(notification) {
      return OpenNotification;
    }
    return DispatchUpdated;
  }

  // ---------------------------------------------------------------------
  // Badges

  /** One badge after `updateCartCount`: the count as its text, and `hidden`
      removed when the count is positive. */
  function ShowCount(e: Element, count: int): Element {
    var t := e.(text := BadgeText(count));
    if count > 0 then RemoveClass(t, HiddenClass) else t
  }

  /** The badge reads back as the count, is visible when the count is
      positive, is never hidden by the update, and keeps its other classes. */
  lemma ShowCountRules(e: Element, count: int)
    ensures ParseInt(ShowCount(e, count).text) == Some(count)
    ensures count > 0 ==> HiddenClass !in ShowCount(e, count).classes
    ensures HiddenClass in ShowCount(e, count).classes ==> HiddenClass in e.classes
    ensures ShowCount(e, count).classes - {HiddenClass} == e.classes - {HiddenClass}
    ensures ShowCount(e, count).attrs == e.attrs
  {
  }

  // ---------------------------------------------------------------------
  // Hover images

  /** A `.custom-product-card` with its primary and secondary image, if any. */
  datatype HoverCard = HoverCard(primary: Option<Element>, secondary: Option<Element>)

  predicate HasBothImages(c: HoverCard) {
    c.primary.Some? && c.secondary.Some?
  }

  /** The `mouseenter` (`entered`) or `mouseleave` handler of a card with both
      images. */
  function Hovered(c: HoverCard, entered: bool): HoverCard
    requires HasBothImages(c)
  {
    HoverCard(
      Some(SetStyle(c.primary.value, "opacity", if entered then "0" else "1")),
      Some(SetStyle(c.secondary.value, "opacity", if entered then "1" else "0")))
  }

  /** After `mouseenter` the primary image is transparent and the secondary
      opaque, after `mouseleave` the reverse, whatever came before: the last
      event wins. */
  lemma HoverLastWins(c: HoverCard, first: bool, last: bool)
    requires HasBothImages(c)
    ensures HasBothImages(Hovered(c, first))
    ensures Hovered(Hovered(c, first), last) == Hovered(c, last)
    ensures Hovered(c, last).primary.value.style["opacity"] == (if last then "0" else "1")
    ensures Hovered(c, last).secondary.value.style["opacity"] == (if last then "1" else "0")
  {
    assert c.primary.value.style["opacity" := if first then "0" else "1"]["opacity" := if last then "0" else "1"]
      == c.primary.value.style["opacity" := if last then "0" else "1"];
    assert c.secondary.value.style["opacity" := if first then "1" else "0"]["opacity" := if last then "1" else "0"]
      == c.secondary.value.style["opacity" := if last then "1" else "0"];
  }

  // ---------------------------------------------------------------------
  // Accessibility

  /** `if (!action.hasAttribute('tabindex')) action.setAttribute('tabindex', '0')` */
  function Focusable(e: Element): Element {
    if HasAttribute(e, "tabindex") then e else SetAttribute(e, "tabindex", "0")
  }

  /** Every action ends focusable; an existing tabindex, whatever its value,
      is kept; a missing one becomes "0"; doing it again changes nothing. */
  lemma FocusableRules(e: Element)
    ensures HasAttribute(Focusable(e), "tabindex")
    ensures HasAttribute(e, "tabindex") ==> Focusable(e) == e
    ensures !HasAttribute(e, "tabindex") ==> Focusable(e).attrs == e.attrs["tabindex" := "0"]
    ensures Focusable(Focusable(e)) == Focusable(e)
  {
  }

  /** The keys that activate a quick action. */
  predicate Activates(key: string) {
    key == "Enter" || key == " "
  }

  // ---------------------------------------------------------------------
  // The page

  class CustomProductCards {
    var actions: seq<Element>         // the quick-action elements
    var cards: seq<HoverCard>
    var badges: seq<Element>          // `.cart-count-bubble, [data-cart-count]`

    var started: bool                 // the constructor's `init` has run
    var cartListeners: set<nat>       // actions with the quick-add click handler
    var viewListeners: set<nat>       // actions with the quick-view click handler
    var keyListeners: set<nat>        // actions with the keydown handler
    var hoverListeners: set<nat>      // cards with the hover handlers

    var requests: seq<AddRequest>
    var open: set<nat>                // add requests not yet answered
    var countRequests: nat
    var countOpen: nat
    var targets: seq<CartTarget>      // what each successful add opened or dispatched
    var navigations: seq<string>      // URLs assigned to `window.location.href`

    ghost predicate Valid()
      reads this
    {
      && (forall k :: k in cartListeners + viewListeners + keyListeners ==> k < |actions|)
      && (forall c :: c in hoverListeners ==> c < |cards| && HasBothImages(cards[c]))
      && (forall r :: r in open ==> r < |requests|)
      && (forall r :: 0 <= r < |requests| ==> requests[r].button < |actions|)
      && countOpen <= countRequests
    }

    constructor (actions: seq<Element>, cards: seq<HoverCard>, badges: seq<Element>)
      ensures Valid() && !started
      ensures this.actions == actions && this.cards == cards && this.badges == badges
      ensures cartListeners == {} && viewListeners == {} && keyListeners == {} && hoverListeners == {}
      ensures requests == [] && open == {} && countRequests == 0 && countOpen == 0 && targets == [] && navigations == []
    {
      this.actions, this.cards, this.badges := actions, cards, badges;
      started := false;
      cartListeners, viewListeners, keyListeners, hoverListeners := {}, {}, {}, {};
      requests, open, countRequests, countOpen, targets, navigations := [], {}, 0, 0, [], [];
    }

    /** `init`: the handlers are bound by class, the hover handlers only on
        cards with both images, and every quick action without a tabindex
        gets "0". */
    method Init()
      requires Valid() && !started
      modifies this`started, this`cartListeners, this`viewListeners, this`keyListeners, this`hoverListeners, this`actions
      ensures Valid() && started
      ensures cartListeners == set k | 0 <= k < |old(actions)| && CartAction in old(actions)[k].classes
      ensures viewListeners == set k | 0 <= k < |old(actions)| && ViewAction in old(actions)[k].classes
      ensures keyListeners == set k | 0 <= k < |old(actions)| && QuickAction in old(actions)[k].classes
      ensures hoverListeners == set c | 0 <= c < |cards| && HasBothImages(cards[c])
      ensures |actions| == |old(actions)|
      ensures forall k :: 0 <= k < |actions| ==>
        actions[k] == if QuickAction in old(actions)[k].classes then Focusable(old(actions)[k]) else old(actions)[k]
    {
      cartListeners := set k | 0 <= k < |actions| && CartAction in actions[k].classes;
      viewListeners := set k | 0 <= k < |actions| && ViewAction in actions[k].classes;
      hoverListeners := set c | 0 <= c < |cards| && HasBothImages(cards[c]);
      keyListeners := set k | 0 <= k < |actions| && QuickAction in actions[k].classes;
      MakeFocusable();
      started := true;
    }

    /** The tabindex part of `initAccessibility`. */
    method MakeFocusable()
      requires Valid()
      modifies this`actions
      ensures Valid() && |actions| == |old(actions)|
      ensures forall k :: 0 <= k < |actions| ==>
        actions[k] == if QuickAction in old(actions)[k].classes then Focusable(old(actions)[k]) else old(actions)[k]
    {
      var i := 0;
      while i < |actions|
        invariant 0 <= i <= |actions| == |old(actions)|
        invariant forall j :: 0 <= j < |actions| ==>
          actions[j] == if j < i && QuickAction in old(actions)[j].classes then Focusable(old(actions)[j]) else old(actions)[j]
      {
        if QuickAction in actions[i].classes && !HasAttribute(actions[i], "tabindex") {
          actions := actions[i := SetAttribute(actions[i], "tabindex", "0")];
        }
        i := i + 1;
      }
    }

    /** The quick-add click handler of action `k`: without a truthy
        `data-product-id` nothing happens; otherwise the action is set loading
        and `{items: [{id, quantity: 1}]}` is posted. */
    method CartClick(k: nat)
      requires Valid() && k in cartListeners
      modifies this`actions, this`requests, this`open
      ensures Valid()
      ensures var id := GetAttribute(old(actions)[k], "data-product-id");
        if Truthy(id) then
          && actions == old(actions)[k := Busy(old(actions)[k], LoadingClass)]
          && requests == old(requests) + [AddRequest(k, Items([LineItem(id.value, 1)]))]
          && open == old(open) + {|old(requests)|}
        else
          actions == old(actions) && requests == old(requests) && open == old(open)
    {
      assert k in cartListeners + viewListeners + keyListeners;
      var variantId := GetAttribute(actions[k], "data-product-id");
      if !Truthy(variantId) {
        return;
      }
      actions := actions[k := AddClass(actions[k], LoadingClass)];
      actions := actions[k := actions[k].(disabled := true)];
      requests := requests + [AddRequest(k, Items([LineItem(variantId.value, 1)]))];
      open := open + {|requests| - 1};
    }

    /** The answer to add request `r`, `ok` when the response was ok and its
        JSON parsed: on success a count refresh is requested and the cart
        component opened or the event dispatched; in both cases the action
        settles. */
    method CartAnswered(r: nat, ok: bool, drawer: Component, notification: Component)
      requires Valid() && r in open
      modifies this`actions, this`open, this`countRequests, this`countOpen, this`targets
      ensures Valid()
      ensures var b := requests[r].button;
        actions == old(actions)[b := Idle(old(actions)[b], LoadingClass)]
      ensures open == old(open) - {r}
      ensures ok ==>
        && countRequests == old(countRequests) + 1 && countOpen == old(countOpen) + 1
        && |targets| == |old(targets)| + 1 && targets[..|old(targets)|] == old(targets)
        && targets[|old(targets)|] != NoTarget
        && (targets[|old(targets)|] == OpenDrawer <==> CanOpen(drawer))
        && (targets[|old(targets)|] == OpenNotification <==> !CanOpen(drawer) && CanOpen(notification))
      ensures !ok ==> countRequests == old(countRequests) && countOpen == old(countOpen) && targets == old(targets)
    {
      var button := requests[r].button;
      if ok {
        countRequests := countRequests + 1;
        countOpen := countOpen + 1;
        var t := OpenCartDrawer(drawer, notification);
        targets := targets + [t];
      }
      actions := actions[button := RemoveClass(actions[button], LoadingClass)];
      actions := actions[button := actions[button].(disabled := false)];
      open := open - {r};
    }

    /** The answer to one `GET /cart.js`: None when the request or its JSON
        failed, which changes nothing; otherwise every badge shows the count. */
    method CountAnswered(itemCount: Option<int>)
      requires Valid() && countOpen > 0
      modifies this`badges, this`countOpen
      ensures Valid() && countOpen == old(countOpen) - 1
      ensures itemCount.None? ==> badges == old(badges)
      ensures itemCount.Some? ==>
        && |badges| == |old(badges)|
        && forall i :: 0 <= i < |badges| ==> badges[i] == ShowCount(old(badges)[i], itemCount.value)
    {
      countOpen := countOpen - 1;
      if itemCount.None? {
        return;
      }
      var count := itemCount.value;
      var i := 0;
      while i < |badges|
        modifies this`badges
        invariant 0 <= i <= |badges| == |old(badges)|
        invariant forall j :: 0 <= j < |badges| ==>
          badges[j] == if j < i then ShowCount(old(badges)[j], count) else old(badges)[j]
      {
        var element := badges[i].(text := IntToString(count));
        if count > 0 {
          element := RemoveClass(element, HiddenClass);
        }
        badges := badges[i := element];
        i := i + 1;
      }
    }

    /** The quick-view click handler of action `k`: navigates only to a truthy
        `data-product-url`. */
    method ViewClick(k: nat)
      requires Valid() && k in viewListeners
      modifies this`navigations
      ensures var url := GetAttribute(actions[k], "data-product-url");
        navigations == if Truthy(url) then old(navigations) + [url.value] else old(navigations)
    {
      var productUrl := GetAttribute(actions[k], "data-product-url");
      if Truthy(productUrl) {
        navigations := navigations + [productUrl.value];
      }
    }

    /** `action.click()` or a pointer click on action `k`: the click handlers
        bound to it run in the order they were added, quick add first. A
        disabled action receives no click. */
    method Click(k: nat)
      requires Valid() && k < |actions|
      modifies this`actions, this`requests, this`open, this`navigations
      ensures Valid()
      ensures old(actions)[k].disabled ==>
        actions == old(actions) && requests == old(requests) && open == old(open) && navigations == old(navigations)
      ensures !old(actions)[k].disabled ==>
        var id := GetAttribute(old(actions)[k], "data-product-id");
        var url := GetAttribute(old(actions)[k], "data-product-url");
        && requests == old(requests) + (if k in cartListeners && Truthy(id) then [AddRequest(k, Items([LineItem(id.value, 1)]))] else [])
        && actions == (if k in cartListeners && Truthy(id) then old(actions)[k := Busy(old(actions)[k], LoadingClass)] else old(actions))
        && open == old(open) + (if k in cartListeners && Truthy(id) then {|old(requests)|} else {})
        && navigations == old(navigations) + (if k in viewListeners && Truthy(url) then [url.value] else [])
    {
      if actions[k].disabled {
        return;
      }
      if k in cartListeners {
        CartClick(k);
      }
      if k in viewListeners {
        ViewClick(k);
      }
    }

    /** The keydown handler of action `k`: Enter and Space click it, other keys
        do nothing. */
    method KeyDown(k: nat, key: string)
      requires Valid() && k in keyListeners
      modifies this`actions, this`requests, this`open, this`navigations
      ensures Valid()
      ensures !Activates(key) || old(actions)[k].disabled ==>
        actions == old(actions) && requests == old(requests) && open == old(open) && navigations == old(navigations)
      ensures Activates(key) && !old(actions)[k].disabled ==>
        var id := GetAttribute(old(actions)[k], "data-product-id");
        var url := GetAttribute(old(actions)[k], "data-product-url");
        && requests == old(requests) + (if k in cartListeners && Truthy(id) then [AddRequest(k, Items([LineItem(id.value, 1)]))] else [])
        && actions == (if k in cartListeners && Truthy(id) then old(actions)[k := Busy(old(actions)[k], LoadingClass)] else old(actions))
        && open == old(open) + (if k in cartListeners && Truthy(id) then {|old(requests)|} else {})
        && navigations == old(navigations) + (if k in viewListeners && Truthy(url) then [url.value] else [])
    {
      if key == "Enter" || key == " " {
        Click(k);
      }
    }

    /** `mouseenter` (`entered`) or `mouseleave` on card `c`. */
    method Hover(c: nat, entered: bool)
      requires Valid() && c < |cards|
      modifies this`cards
      ensures Valid()
      ensures cards == if c in hoverListeners then old(cards)[c := Hovered(old(cards)[c], entered)] else old(cards)
    {
      if c !in hoverListeners {
        return;
      }
      var card := cards[c];
      var primaryImage := SetStyle(card.primary.value, "opacity", if entered then "0" else "1");
      var secondaryImage := SetStyle(card.secondary.value, "opacity", if entered then "1" else "0");
      cards := cards[c := HoverCard(Some(primaryImage), Some(secondaryImage))];
    }
  }
}
