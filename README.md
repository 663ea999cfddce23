# Storefront theme scripts — a Dafny model

This project models the decision logic of a storefront theme's client-side scripts. Each script becomes a module of its own:

- **`ThemeToggle`**: the light/dark preference in local storage, and how it is applied to the page.
- **`BatmanAnimations`**:
  - the landing page's loading screen;
  - scroll reveal;
  - quote rotation and keyboard navigation;
  - the once-only stats pulse.
- **`ProductCarousel`**: the product-cards carousel, which decodes `data-*` attributes into slider options and guards against initialising twice.
- **`ModernProductCards`**:
  - star ratings;
  - colour swatches;
  - lazy images;
  - card reveal;
  - the quick-add button lifecycle;
  - choosing which cart component to open;
  - cart-count badges.
- **`CustomProductCards`**:
  - quick actions (add to cart, quick view);
  - the cart-opening priority;
  - count badges;
  - image hover;
  - keyboard access.

Three modules are shared:

- **`Dom`** models a DOM element as a value: a set of classes, maps of attributes and inline styles, text, and a disabled flag. It also gives the `classList` and attribute operations, and JavaScript truthiness for attribute values.
- **`JsNumbers`** models the global `parseInt` for decimal text, `String(n)` for integers, and the `x || d` default. It proves that `parseInt` reads back `String(n)`.
- **`Cart`** holds the request bodies, the cart components and the open/dispatch choice that both card scripts share. It also holds the busy/idle states of a quick-add button.

The scripts change the page step by step, so each one is a class. Its fields are the elements it touches and its closure state. Each event handler, timer expiry or network answer is a method that states the whole new state. Where a handler's effect has a natural pure description, the method is proved equal to a specification function. The properties of the script are then proved as lemmas about that function. Examples are `Toggled`, `Scheduled`, `InitAll`, `StarRow` and `Delivered`.

Network answers, intersection reports, element positions, timer expiry and the presence of the slider library are all inputs to the methods.

## Model

| member | source | states |
|---|---|---|
| ThemeToggle.NextPreference | assets/theme-toggle.js:29-30 | the next value is "white" exactly when "black" is stored, and "black" for every other stored value, including an empty slot |
| ThemeToggle.ToggleStores | assets/theme-toggle.js:29-31 | a toggle persists "white" after "black" and "black" after anything else |
| ThemeToggle.ShadeOverrides | assets/theme-toggle.js:7-11 | adding or removing a dark class a second time overrides the first |
| ThemeToggle.ShadeIconOverrides | assets/theme-toggle.js:13-16 | setting an icon's sun/moon a second time overrides the first |
| ThemeToggle.PressOverrides | assets/theme-toggle.js:34-36 | setting `aria-pressed` a second time overrides the first |
| ThemeToggle.AppliedOverrides | assets/theme-toggle.js:5-26 | applying a value to the page overrides any earlier application, on the root, wrappers, body and icons |
| ThemeToggle.AppliedIdempotent | assets/theme-toggle.js:5-26 | applying the same value twice equals applying it once |
| ThemeToggle.ShownOverrides | assets/theme-toggle.js:28-37 | applying a value and setting every button's `aria-pressed` overrides an earlier such step |
| ThemeToggle.AppliedClasses | assets/theme-toggle.js:6-25 | after applying a value, the root, body and every wrapper have the dark class exactly when it is "black", and every icon has the moon exactly when dark and the sun exactly when not; storage and buttons are unchanged |
| ThemeToggle.ToggleTwice | assets/theme-toggle.js:28-37 | two toggles show the starting theme again, with "black" or "white" stored |
| ThemeToggle.ToggleTwiceRestores | assets/theme-toggle.js:28-37 | from "white" or "black" on a page showing it, two toggles restore the stored value and every class and attribute |
| ThemeToggle.LoadedSettles | assets/theme-toggle.js:39-69 | after load the page shows its stored preference, so applying that preference again changes nothing |
| ThemeToggle.LoadedDefaultsToWhite | assets/theme-toggle.js:41-58 | on load an empty slot is shown exactly as a stored "white", with every button's `aria-pressed` "false" |
| ThemeToggle.ClickedShowsNewValue | assets/theme-toggle.js:46-56 | after a click, whatever the optimistic moon toggle did, every icon shows exactly the new value's icon, every button's `aria-pressed` matches it, and the new value is stored |
| ThemeToggle.ThemeController.ApplyTheme | assets/theme-toggle.js:5-26 | the loops over wrappers and icons leave the page equal to `Applied` of the old page |
| ThemeToggle.ThemeController.PressButtons | assets/theme-toggle.js:34-36 | every button's `aria-pressed` is set to the given flag |
| ThemeToggle.ThemeController.ToggleTheme | assets/theme-toggle.js:28-37 | the page becomes `Toggled` of the old page |
| ThemeToggle.ThemeController.Load | assets/theme-toggle.js:39-70 | the load handler leaves the page equal to `Loaded` of the old page, and binds the buttons' clicks |
| ThemeToggle.ThemeController.Click | assets/theme-toggle.js:49-56 | a button click, possible only once the load handler has run, leaves the page equal to `Clicked` of the old page |
| ThemeToggle.ThemeController.AnimationEnded | assets/theme-toggle.js:53 | the 600 ms timer removes only the animation class from the clicked button's icon |
| BatmanAnimations.NextQuote | assets/batman-animations.js:114 | `(i + 1) % n` is below n, and is the next index with the last wrapping to 0 |
| BatmanAnimations.PrevQuote | assets/batman-animations.js:222 | `(i - 1 + n) % n` is below n, and is the previous index with 0 wrapping to n - 1 |
| BatmanAnimations.AdvanceSplits | assets/batman-animations.js:109-118 | a + b rotation ticks equal a ticks followed by b ticks |
| BatmanAnimations.AdvanceCounts | assets/batman-animations.js:114 | before wrapping, k ticks from i reach i + k |
| BatmanAnimations.RotationCycles | assets/batman-animations.js:109-121 | the rotation index stays in [0, n), visits every quote in order from 0, and n ticks return it to its start |
| BatmanAnimations.KeyIndicesInverse | assets/batman-animations.js:217-225 | ArrowRight then ArrowLeft, and the reverse, give back the index |
| BatmanAnimations.MoveActiveKeepsOne | assets/batman-animations.js:111-117 | if exactly quote i is active before a step, exactly the new quote is active after it, and no other quote changes |
| BatmanAnimations.RightThenLeft | assets/batman-animations.js:217-225 | ArrowRight then ArrowLeft restores both the index and the quotes' active classes |
| BatmanAnimations.RevealDelayDecodes | assets/batman-animations.js:52 | a missing, digit-free or zero `data-delay` is no delay, and the decimal text of d is delay d |
| BatmanAnimations.ScheduledOnlyInView | assets/batman-animations.js:49-59 | every reveal timer a pass starts is for an element whose [top, bottom] meets the window on closed bounds, with that element's delay |
| BatmanAnimations.ScheduledAllInView | assets/batman-animations.js:49-72 | every element on screen gets a reveal timer in the pass |
| BatmanAnimations.ScheduledInOrder | assets/batman-animations.js:49-72 | a pass's timers are in document order, so no element gets two in one pass |
| BatmanAnimations.AppendIncreasing | assets/batman-animations.js:49-59 | appending a later element keeps a timer list in document order |
| BatmanAnimations.ScheduledStep | assets/batman-animations.js:49-59 | one more element adds its timer exactly when it is on screen |
| BatmanAnimations.ScheduledAdds | assets/batman-animations.js:52-57 | an element on screen adds one timer, carrying its own `data-delay`, to the pass |
| BatmanAnimations.ScheduledSkips | assets/batman-animations.js:54 | an element off screen adds no timer to the pass |
| BatmanAnimations.ScheduleVisible | assets/batman-animations.js:49-59 | the `forEach` over a reveal list starts exactly the timers `Scheduled` lists |
| BatmanAnimations.BatmanPage.Init | assets/batman-animations.js:233-250 | init arms the loading screen when its elements exist, starts the keyboard counter at 0 and runs the first stats check |
| BatmanAnimations.BatmanPage.InitLoadingScreen | assets/batman-animations.js:12-19 | nothing happens unless both the loader and the content exist; otherwise the loading timer is armed |
| BatmanAnimations.BatmanPage.LoadingTimerFired | assets/batman-animations.js:19-33 | the loader gets `hidden` and the content gets `visible`; removal is armed, scroll reveal runs its first pass, and quote rotation starts when quotes exist |
| BatmanAnimations.BatmanPage.RemovalTimerFired | assets/batman-animations.js:24-28 | the loader is taken out of the page |
| BatmanAnimations.BatmanPage.CheckVisibility | assets/batman-animations.js:43-73 | the pending timers grow by exactly the fade-in pass followed by the slide-up pass |
| BatmanAnimations.BatmanPage.RevealTimerFired | assets/batman-animations.js:55-57 | the timer's element gains `animate`, the timer is gone, and the other list is unchanged; no step removes `animate` |
| BatmanAnimations.BatmanPage.InitQuoteRotation | assets/batman-animations.js:100-107 | rotation starts at index 0 only when the container and at least one quote exist |
| BatmanAnimations.BatmanPage.ShowNextQuote | assets/batman-animations.js:109-118 | the rotation index becomes `NextQuote` of the old one and the active class moves with it; the keyboard counter is not touched |
| BatmanAnimations.BatmanPage.KeyDown | assets/batman-animations.js:212-227 | other keys change nothing; an arrow key with no quotes throws before any change; otherwise the keyboard counter moves right or left and the active class moves with it, while the rotation counter is not touched |
| BatmanAnimations.BatmanPage.AnimateStats | assets/batman-animations.js:160-176 | once `hasAnimated` is set nothing changes; the call that sets it pulses exactly the stats above the window's bottom, and sets the flag exactly when one is there |
| BatmanAnimations.CountersAreIndependent | assets/batman-animations.js:106-210 | on any page of at least three quotes with quote 0 active, one rotation step then ArrowLeft leaves two quotes active (quote 1 and the last), because rotation and keys keep separate counters |
| ProductCarousel.FlagsDecode | assets/product-cards.js:18-22 | autoplay and dots are each on exactly when their attribute is the string "true" or "1" |
| ProductCarousel.IntervalDecodes | assets/product-cards.js:20 | the interval is 3000 when its attribute is missing, has no digit or is "0", and otherwise the non-zero number it parses to |
| ProductCarousel.DecodeWritten | assets/product-cards.js:18-22 | settings written as attributes decode back to themselves, except that a zero interval decodes as the default |
| ProductCarousel.OptionsFollowAttributes | assets/product-cards.js:24-43 | pagination is off exactly when dots are off, and otherwise clickable on the container's pagination element; an autoplay entry with the decoded interval exists exactly when autoplay is on; the coverflow settings are fixed |
| ProductCarousel.InitAllMarks | assets/product-cards.js:13-53 | a marked container is skipped; an unmarked one is marked, with the options decoded from its attributes, exactly when the library exists and its construction succeeds; otherwise it is unchanged |
| ProductCarousel.SecondRunSkips | assets/product-cards.js:15 | a second run leaves every container the first run marked untouched |
| ProductCarousel.InitAllIdempotent | assets/product-cards.js:13-53 | when every construction succeeds, running the handler twice equals running it once |
| ProductCarousel.SetUpContainer | assets/product-cards.js:14-52 | one turn of the `forEach` gives `InitOne` of the container |
| ProductCarousel.CarouselSection.Initialize | assets/product-cards.js:5-54 | the in-place `forEach` leaves the containers equal to `InitAll` of the old ones, and with no containers or no library none changes |
| ModernProductCards.Rem1 | assets/modern-product-cards.js:310 | `r % 1` is the fractional part r - floor(r), in [0, 1), for r >= 0, and lies in (-1, 0] for negative r |
| ModernProductCards.Repeat | assets/modern-product-cards.js:316-328 | n copies of a star, and none when the loop bound is not positive |
| ModernProductCards.GenerateStars | assets/modern-product-cards.js:308-331 | the three `for` loops emit exactly `StarRow(rating)` |
| ModernProductCards.FiveStarsInRange | assets/modern-product-cards.js:309-328 | for 0 < rating <= 5 the row has exactly five stars: floor(rating) full stars, then a half star exactly when the fraction is at least 0.5, then empty stars |
| ModernProductCards.StarsOverflow | assets/modern-product-cards.js:311-328 | when full stars and the half star exceed five, the empty count is negative, no empty star is emitted, and the row is longer than five |
| ModernProductCards.NegativeRatingEmpty | assets/modern-product-cards.js:309-328 | a negative rating gives no full and no half star, and more than five empty stars |
| ModernProductCards.RenderBoxRules | assets/modern-product-cards.js:297-305 | a container is rewritten only when its rating is a positive number, and the count suffix appears only when `parseInt(count) || 0` is positive |
| ModernProductCards.RatingCountDecodes | assets/modern-product-cards.js:299 | a missing `data-count` decodes as 0, and the decimal text of a positive n as n |
| ModernProductCards.ProductRating.RenderRatings | assets/modern-product-cards.js:294-306 | every container becomes `RenderBox` of itself |
| ModernProductCards.TriggerCartDrawer | assets/modern-product-cards.js:274-283 | the drawer is opened exactly when it can be, the notification exactly when the drawer cannot be and the notification can, and otherwise nothing |
| ModernProductCards.SwatchExclusive | assets/modern-product-cards.js:145-147 | after a click inside a card, the clicked swatch is that card's only active swatch, and swatches of other cards are unchanged |
| ModernProductCards.PromoteIdempotent | assets/modern-product-cards.js:176-181 | promoting a lazy image a second time changes nothing |
| ModernProductCards.PromoteMoves | assets/modern-product-cards.js:176-181 | a non-empty `data-src` becomes `src` and is removed, and the image gets `loaded` |
| ModernProductCards.Delivered | assets/modern-product-cards.js:173-183 | the callback over a batch keeps the number of elements; what it does to each is `DeliveredEffect` |
| ModernProductCards.EffectIdempotent | assets/modern-product-cards.js:176-181 | a second report for an element already promoted or marked `animate-in` changes nothing |
| ModernProductCards.DeliveredEffect | assets/modern-product-cards.js:173-183 | after a batch, every element with an intersecting report carries the callback's effect, and every other element is unchanged |
| ModernProductCards.DeliveredUnobserves | assets/modern-product-cards.js:173-183 | after a batch, an element is still observed exactly when it was before and no report for it was intersecting |
| ModernProductCards.ModernProductCards.Init | assets/modern-product-cards.js:12-20 | nothing happens without cards; with an observer, exactly the images with `data-src` are observed, and every card is marked `will-animate` and observed |
| ModernProductCards.ModernProductCards.QuickAddClick | assets/modern-product-cards.js:29-44 | without a card or a truthy product id nothing changes; otherwise the button is loading and disabled, and one `{id, quantity: 1}` request is opened |
| ModernProductCards.ModernProductCards.AddToCartAnswered | assets/modern-product-cards.js:51-85 | on success or failure the button ends without `is-loading` and enabled; success alone asks for a count refresh and records the drawer when it can open, else the notification when it can, else no target |
| ModernProductCards.ModernProductCards.CartCountAnswered | assets/modern-product-cards.js:254-269 | a failed refresh changes nothing; otherwise every `[data-cart-count]` text becomes the item count, and one `cart:updated` is dispatched |
| ModernProductCards.ModernProductCards.SwatchClick | assets/modern-product-cards.js:133-149 | the swatches become `SwatchClicked` of the old ones |
| ModernProductCards.ModernProductCards.ImagesIntersect | assets/modern-product-cards.js:172-183 | for reports on observed images, the images and the observed set become `Delivered` of the lazy-load callback |
| ModernProductCards.ModernProductCards.CardsIntersect | assets/modern-product-cards.js:199-206 | for reports on observed cards, the cards and the observed set become `Delivered` of the animation callback |
| CustomProductCards.OpenCartDrawer | assets/custom-product-cards.js:213-230 | exactly one action, in priority order: the drawer if it can be opened, else the notification, else dispatching `cart:updated` |
| CustomProductCards.ShowCountRules | assets/custom-product-cards.js:196-203 | a badge reads back as the count, loses `hidden` when the count is positive, and never gains `hidden` |
| CustomProductCards.HoverLastWins | assets/custom-product-cards.js:118-127 | after enter or leave, the last event alone decides the two images' opacity |
| CustomProductCards.FocusableRules | assets/custom-product-cards.js:148-150 | every action ends with a tabindex; an existing one is kept, whatever its value, and a missing one becomes "0" |
| CustomProductCards.CustomProductCards.Init | assets/custom-product-cards.js:11-23 | handlers are bound exactly to actions with the cart, view and quick-action classes, hover handlers only to cards with both images, and each quick action is made focusable |
| CustomProductCards.CustomProductCards.MakeFocusable | assets/custom-product-cards.js:138-151 | each quick action becomes `Focusable` of itself, and other actions are unchanged |
| CustomProductCards.CustomProductCards.CartClick | assets/custom-product-cards.js:32-58 | without a truthy `data-product-id` nothing changes; otherwise the action is loading and disabled, and one `{items: [{id, quantity: 1}]}` request is opened |
| CustomProductCards.CustomProductCards.CartAnswered | assets/custom-product-cards.js:47-83 | on success or failure the action ends without `loading` and enabled; success alone asks for a count refresh and records a chosen target, which is never nothing |
| CustomProductCards.CustomProductCards.CountAnswered | assets/custom-product-cards.js:190-208 | a failed refresh changes nothing; otherwise every badge becomes `ShowCount` of the item count |
| CustomProductCards.CustomProductCards.ViewClick | assets/custom-product-cards.js:94-104 | quick view navigates only when `data-product-url` is truthy, and then to that URL |
| CustomProductCards.CustomProductCards.Click | assets/custom-product-cards.js:32-104 | a disabled action changes nothing; otherwise the bound quick-add handler, then the quick-view handler, each acts as its own method states: the action set busy, one items-array request added and left waiting alongside the earlier waiting ones, and the navigation |
| CustomProductCards.CustomProductCards.KeyDown | assets/custom-product-cards.js:139-146 | only Enter and Space click the action, with the click's effect on the actions, requests, waiting requests and navigations stated; other keys change nothing |
| CustomProductCards.CustomProductCards.Hover | assets/custom-product-cards.js:118-127 | a card with both images becomes `Hovered`, and other cards are unchanged |
| Cart.BadgeText | assets/custom-product-cards.js:198 | the text written into a badge parses back to the item count |
| Cart.BusyThenIdle | assets/custom-product-cards.js:44-82 | whatever the cart answers, the button ends without the loading class and enabled, with its attributes and text kept and no other class changed |
| JsNumbers.OrDefault | assets/product-cards.js:20 | `x \|\| d` is d exactly when x is NaN, 0 or d itself, and otherwise the non-zero number x |
| JsNumbers.DecimalValue | assets/product-cards.js:20 | the digits of `String(n)` have the value n |
| JsNumbers.DigitRunOf | assets/product-cards.js:20 | `parseInt` reads digits up to the first character that is not a digit |
| JsNumbers.TrimStartSuffix | assets/product-cards.js:20 | skipping leading white space keeps a suffix of the text that does not start with white space |
| JsNumbers.ParseIntOfDecimal | assets/batman-animations.js:52 | `parseInt` reads back the decimal text of any integer, even with non-digit text after it |
| JsNumbers.ParseIntRoundTrip | assets/product-cards.js:20 | `parseInt(String(i)) == i` for every integer i |
| JsNumbers.ParseIntNoDigits | assets/product-cards.js:20 | a string with no decimal digit parses to NaN |
| JsNumbers.ParseIntMissing | assets/product-cards.js:20 | a missing attribute parses to NaN |

## Left out

- The `fetch` calls to `/cart/add.js` and `/cart.js`, their headers and JSON parsing. A request is recorded with its body. Its answer is an input: `ok` for the add, or the `item_count` (None on any failure) for the count.
- `item_count` is taken to be an integer. A non-integer count would reach `String()` as a float.
- Timers are explicit steps. These are:
  - the 2.5 s loading timer;
  - the 600 ms removal timer;
  - the per-element reveal delays;
  - the 5 s quote interval;
  - the 600 ms toggle-animation timer.

  The delay values are not compared with a clock.
- The scroll and resize throttles and the `debounce` helper are not modelled. A scroll is a direct call of `CheckVisibility` and `AnimateStats`.
- `IntersectionObserver` thresholds and `rootMargin` are not modelled. A batch of reports is an input.
- `getBoundingClientRect`, `offsetHeight`, `innerHeight` and `pageYOffset` are integer inputs. Fractional pixels are not modelled.
- The parallax effect (batman-animations.js:127-151) is left out. It is float arithmetic driven by `requestAnimationFrame`.
- `parseFloat` of `data-rating`: the rating is an optional exact `real`, and a NaN result is `None`, which `RenderBox` treats as failing `rating > 0`. Float rounding and Infinity are not modelled.
- `parseInt` is modelled for decimal digits with optional leading white space and sign. Its hexadecimal prefix and float precision above 2^53 are not modelled. A missing attribute reads as "null", while `dataset.count` would give `undefined`; both parse to NaN.
- The slider library is opaque. A container's marker records the options its slider was built with, and whether construction throws is an input. The library's own behaviour is not modelled.
- Foreign calls are recorded only as a choice:
  - navigation through `window.location`;
  - `product-modal.loadContent`;
  - `cart-drawer.open` and `cart-notification.open`;
  - the `cart:updated` event.
- The modern cards' quick view (modern-product-cards.js:90-125) is not part of this model.
- Visual-only feedback is not part of this model:
  - the modern cards' success and error feedback (modern-product-cards.js:220-249): the button's content swapped for a checkmark SVG and restored after 2 s, and the green or red inline background and colour;
  - the custom cards' success and error animations (custom-product-cards.js:157-185): the button's content swapped for a checkmark SVG with `scale(1.3)` and restored after 1.5 s, and the 0.4 s `shake` inline animation;
  - a single swap restores the button's content when its timer fires, so a button's text is modelled as unchanged by a quick add;
  - the star markup (a row is a sequence of `Star` tokens);
  - `updateProductImage`'s opacity fade;
  - the injected shake and pulse keyframes (custom-product-cards.js:236-255).
- The following are not modelled:
  - `preventDefault` and `stopPropagation`;
  - the theme-editor re-initialisation on `shopify:section:load` (custom-product-cards.js:269-271) and on `shopify:section:load`/`shopify:section:reorder` (modern-product-cards.js:366-374). Each such event binds another click handler to every quick-add button, so one click then sends several requests; the model binds each handler once;
  - the global `error` handler;
  - `module.exports`;
  - the `readyState` branch that chooses when `init` runs.
- Two successes on one button inside the restore window (2 s for the modern cards, 1.5 s for the custom cards) are not captured. The second swap saves the checkmark as the content to restore (modern-product-cards.js:221, custom-product-cards.js:159); the first timer puts the label back, then the second timer writes the checkmark back for good.
- Concurrency: each handler runs atomically. Rapid repeated clicks and the interleaving of answers are covered only by the order in which the methods are called.
- The browser does not deliver clicks to a disabled button. For the modern cards this is a requirement of `QuickAddClick`. The custom cards' `Click` models it as no change.
- A handler that would throw leaves the state unchanged:
  - a quick-add button outside a card;
  - a colour swatch outside a card (`updateProductImage` is handed no card, modern-product-cards.js:138-158), so no swatch changes;
  - an arrow key with no quotes.
- Local storage is one optional string slot. Storage exceptions are not modelled.
- `console.warn` and `console.error` output is not modelled.
- The stylesheet's effect of the classes is not modelled. The model tracks only which classes an element carries.
