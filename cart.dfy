/** What the two product-card scripts send to and read from the storefront's
    cart endpoints, and which cart component they open afterwards. The HTTP
    exchange itself is not modelled: a request is recorded, and its answer
    arrives later as an abstract success or failure. */
module Cart {
  import opened Dom
  import opened JsNumbers

  datatype LineItem = LineItem(id: string, quantity: int)

  /** The JSON body of a POST to `/cart/add.js`: `{id, quantity}` or
      `{items: [{id, quantity}, ...]}`. */
  datatype AddBody = Single(item: LineItem) | Items(items: seq<LineItem>)

  /** A `POST /cart/add.js` issued for the button or action at index `button`. */
  datatype AddRequest = AddRequest(button: nat, body: AddBody)

  /** A `cart-drawer` or `cart-notification` element as `document.querySelector`
      finds it: missing, present without an `open` method, or openable. */
  datatype Component = Missing | NotOpenable | Openable

  /** What a successful add leads to: one of the two cart components opened,
      a `cart:updated` event dispatched, or nothing. */
  datatype CartTarget = OpenDrawer | OpenNotification | DispatchUpdated | NoTarget

  /** `typeof c.open === 'function'` for a component that exists. */
  predicate CanOpen(c: Component) {
    c == Openable
  }

  /** The text a count badge shows after `element.textContent = cart.item_count`. */
  function BadgeText(count: int): (t: string)
    ensures ParseInt(t) == Some(count)
  {
    ParseIntRoundTrip(count);
    IntToString(count)
  }

  /** A quick-add button while its request is out: the loading class `c`
      added and the button disabled. */
  function Busy(b: Element, c: string): Element {
    AddClass(b, c).(disabled := true)
  }

  /** The `finally` of a quick add: the loading class removed, enabled again. */
  function Idle(b: Element, c: string): Element {
    RemoveClass(b, c).(disabled := false)
  }

  /** Whatever the cart answers, the button ends up neither loading nor
      disabled, with its other classes, attributes and text as before the
      click; a button that was idle before the click is exactly as it was. */
  lemma BusyThenIdle(b: Element, c: string)
    ensures c !in Idle(Busy(b, c), c).classes && !Idle(Busy(b, c), c).disabled
    ensures Idle(Busy(b, c), c).classes == b.classes - {c}
    ensures Idle(Busy(b, c), c).attrs == b.attrs && Idle(Busy(b, c), c).text == b.text
    ensures c !in b.classes && !b.disabled ==> Idle(Busy(b, c), c) == b
  {
    if c !in b.classes {
      assert b.classes + {c} - {c} == b.classes;
    }
  }
}
