/** The light/dark theme switch: a preference kept in local storage under
    `theme-preference`, where "black" is dark and every other value, and an
    empty slot, is light; toggling flips and persists it, and applying it
    sets the dark classes on the document root, the header and footer
    wrappers and the body, the sun or moon icon on every `#theme-toggle`
    icon, and `aria-pressed` on every `.theme-toggle-button`. */
module ThemeToggle {
  import opened Dom

  const DarkClass := "theme-black"
  const BodyDarkClass := "dark-theme"
  const SunIcon := "fa-sun"
  const MoonIcon := "fa-moon"
  const ToggleAnimation := "animate-toggle"
  const PressedAttr := "aria-pressed"

  /** `localStorage.getItem(STORAGE_KEY) || 'white'` */
  function Preference(stored: Option<string>): string {
    if Truthy(stored) then stored.value else "white"
  }

  /** The value `toggleTheme` stores and applies. */
  function NextPreference(stored: Option<string>): (next: string)
    ensures next == "white" <==> stored == Some("black")
    ensures next == "black" <==> stored != Some("black")
  {
    if Preference(stored) == "black" then "white" else "black"
  }

  /** A root or wrapper element with the dark class added or removed. */
  function Shade(e: Element, c: string, dark: bool): Element {
    if dark then AddClass(e, c) else RemoveClass(e, c)
  }

  /** A `#theme-toggle` icon showing the moon when dark and the sun otherwise. */
  function ShadeIcon(e: Element, dark: bool): Element {
    if dark then AddClass(RemoveClass(e, SunIcon), MoonIcon)
    else AddClass(RemoveClass(e, MoonIcon), SunIcon)
  }

  function Press(e: Element, dark: bool): Element {
    SetAttribute(e, PressedAttr, BoolText(dark))
  }

  function ShadeAll(es: seq<Element>, dark: bool): seq<Element> {
    seq(|es|, i requires 0 <= i < |es| => Shade(es[i], DarkClass, dark))
  }

  function ShadeIcons(es: seq<Element>, dark: bool): seq<Element> {
    seq(|es|, i requires 0 <= i < |es| => ShadeIcon(es[i], dark))
  }

  function PressAll(es: seq<Element>, dark: bool): seq<Element> {
    seq(|es|, i requires 0 <= i < |es| => Press(es[i], dark))
  }

  /** The part of the page the script reads and writes. `inner[b]` is the
      position in `icons` of the `#theme-toggle` icon inside button `b`, if
      it has one. */
  datatype Page = Page(
    stored: Option<string>,
    root: Element,
    body: Element,
    wrappers: seq<Element>,
    icons: seq<Element>,
    buttons: seq<Element>,
    inner: seq<Option<nat>>)

  ghost predicate WellFormed(p: Page) {
    && |p.inner| == |p.buttons|
    && forall b :: 0 <= b < |p.inner| && p.inner[b].Some? ==> p.inner[b].value < |p.icons|
  }

  /** `applyTheme(value)` */
  function Applied(p: Page, value: string): Page {
    var dark := value == "black";
    p.(root := Shade(p.root, DarkClass, dark),
       wrappers := ShadeAll(p.wrappers, dark),
       body := Shade(p.body, BodyDarkClass, dark),
       icons := ShadeIcons(p.icons, dark))
  }

  /** The page with `value` applied and every button's `aria-pressed` set to match. */
  function Shown(p: Page, value: string): Page {
    var q := Applied(p, value);
    q.(buttons := PressAll(q.buttons, value == "black"))
  }

  /** `toggleTheme()` */
  function Toggled(p: Page): Page {
    var next := NextPreference(p.stored);
    Shown(p.(stored := Some(next)), next)
  }

  /** The `DOMContentLoaded` handler: the stored preference applied, and each
      button's pressed state and inner icon set from it. */
  function Loaded(p: Page): Page {
    Shown(p, Preference(p.stored))
  }

  /** The optimistic icon animation of a click on button `b`, before `toggleTheme`. */
  function Animated(p: Page, b: nat): Page
    requires WellFormed(p) && b < |p.buttons|
  {
    match p.inner[b]
    case None => p
    case Some(k) => p.(icons := p.icons[k := AddClass(ToggleClass(p.icons[k], MoonIcon), ToggleAnimation)])
  }

  /** A click on button `b`. */
  function Clicked(p: Page, b: nat): Page
    requires WellFormed(p) && b < |p.buttons|
  {
    Toggled(Animated(p, b))
  }

  /** The page shows the stored preference: applying it again changes nothing. */
  ghost predicate Settled(p: Page) {
    Shown(p, Preference(p.stored)) == p
  }

  // ---------------------------------------------------------------------
  // Properties of the specification

  lemma ShadeOverrides(e: Element, c: string, a: bool, b: bool)
    ensures Shade(Shade(e, c, a), c, b) == Shade(e, c, b)
  {
    if b {
      assert (e.classes - {c}) + {c} == e.classes + {c};
    } else {
      assert (e.classes + {c}) - {c} == e.classes - {c};
    }
  }

  lemma ShadeIconOverrides(e: Element, a: bool, b: bool)
    ensures ShadeIcon(ShadeIcon(e, a), b) == ShadeIcon(e, b)
  {
    var c := e.classes;
    if a && b {
      assert (c - {SunIcon} + {MoonIcon}) - {SunIcon} + {MoonIcon} == c - {SunIcon} + {MoonIcon};
    } else if a {
      assert (c - {SunIcon} + {MoonIcon}) - {MoonIcon} + {SunIcon} == c - {MoonIcon} + {SunIcon};
    } else if b {
      assert (c - {MoonIcon} + {SunIcon}) - {SunIcon} + {MoonIcon} == c - {SunIcon} + {MoonIcon};
    } else {
      assert (c - {MoonIcon} + {SunIcon}) - {MoonIcon} + {SunIcon} == c - {MoonIcon} + {SunIcon};
    }
  }

  lemma PressOverrides(e: Element, a: bool, b: bool)
    ensures Press(Press(e, a), b) == Press(e, b)
  {
    assert e.attrs[PressedAttr := BoolText(a)][PressedAttr := BoolText(b)] == e.attrs[PressedAttr := BoolText(b)];
  }

  /** Applying a value overrides whatever an earlier application did. */
  lemma AppliedOverrides(p: Page, u: string, v: string)
    ensures Applied(Applied(p, u), v) == Applied(p, v)
  {
    var a, b := u == "black", v == "black";
    ShadeOverrides(p.root, DarkClass, a, b);
    ShadeOverrides(p.body, BodyDarkClass, a, b);
    forall i | 0 <= i < |p.wrappers|
      ensures ShadeAll(ShadeAll(p.wrappers, a), b)[i] == ShadeAll(p.wrappers, b)[i]
    {
      ShadeOverrides(p.wrappers[i], DarkClass, a, b);
    }
    forall i | 0 <= i < |p.icons|
      ensures ShadeIcons(ShadeIcons(p.icons, a), b)[i] == ShadeIcons(p.icons, b)[i]
    {
      ShadeIconOverrides(p.icons[i], a, b);
    }
  }

  /** `applyTheme` is idempotent. */
  lemma AppliedIdempotent(p: Page, v: string)
    ensures Applied(Applied(p, v), v) == Applied(p, v)
  {
    AppliedOverrides(p, v, v);
  }

  lemma ShownOverrides(p: Page, u: string, v: string)
    ensures Shown(Shown(p, u), v) == Shown(p, v)
  {
    AppliedOverrides(p, u, v);
    var a, b := u == "black", v == "black";
    forall i | 0 <= i < |p.buttons|
      ensures PressAll(PressAll(p.buttons, a), b)[i] == PressAll(p.buttons, b)[i]
    {
      PressOverrides(p.buttons[i], a, b);
    }
  }

  /** What `applyTheme` leaves on the page: the dark classes exactly when the
      value is "black", and on every icon exactly one of sun and moon. */
  lemma AppliedClasses(p: Page, v: string)
    ensures var q := Applied(p, v); var dark := v == "black";
      && (DarkClass in q.root.classes <==> dark)
      && (BodyDarkClass in q.body.classes <==> dark)
      && |q.wrappers| == |p.wrappers| && |q.icons| == |p.icons|
      && (forall i :: 0 <= i < |q.wrappers| ==> (DarkClass in q.wrappers[i].classes <==> dark))
      && (forall i :: 0 <= i < |q.icons| ==>
            (MoonIcon in q.icons[i].classes <==> dark) && (SunIcon in q.icons[i].classes <==> !dark))
      && q.stored == p.stored && q.buttons == p.buttons
  {
  }

  /** A toggle persists "white" after "black" and "black" after anything else. */
  lemma ToggleStores(p: Page)
    ensures Toggled(p).stored == Some(if p.stored == Some("black") then "white" else "black")
  {
  }

  /** Two toggles in a row show again the theme the page started from, with
      "black" or "white" (for any other value) now written to storage. */
  lemma {:induction false} ToggleTwice(p: Page)
    ensures var v := if p.stored == Some("black") then "black" else "white";
      Toggled(Toggled(p)) == Shown(p.(stored := Some(v)), v)
  {
    var v := if p.stored == Some("black") then "black" else "white";
    var next := NextPreference(p.stored);
    assert NextPreference(Some(next)) == v;
    ShownOverrides(p.(stored := Some(v)), next, v);
  }

  /** Starting from "white" or "black" on a page that shows it, two toggles
      restore the stored value and every class and attribute. */
  lemma ToggleTwiceRestores(p: Page)
    requires p.stored == Some("white") || p.stored == Some("black")
    requires Settled(p)
    ensures Toggled(Toggled(p)) == p
  {
    ToggleTwice(p);
    assert p.(stored := Some(Preference(p.stored))) == p;
    assert Preference(p.stored) == if p.stored == Some("black") then "black" else "white";
  }

  /** A loaded page is settled. */
  lemma LoadedSettles(p: Page)
    ensures Settled(Loaded(p))
  {
    ShownOverrides(p, Preference(p.stored), Preference(p.stored));
  }

  /** On load an empty slot is shown as "white": the page is the one a stored
      "white" gives, every button unpressed. */
  lemma LoadedDefaultsToWhite(p: Page)
    requires p.stored == None
    ensures Loaded(p) == Loaded(p.(stored := Some("white"))).(stored := None)
    ensures forall b :: 0 <= b < |Loaded(p).buttons| ==> Loaded(p).buttons[b].attrs[PressedAttr] == "false"
  {
  }

  /** After a click, whatever the optimistic icon toggle did, every icon holds
      exactly the icon of the new value, every button's `aria-pressed` says
      whether it is "black", and the new value is stored. */
  lemma ClickedShowsNewValue(p: Page, b: nat)
    requires WellFormed(p) && b < |p.buttons|
    ensures var q := Clicked(p, b); var dark := NextPreference(p.stored) == "black";
      && q.stored == Some(NextPreference(p.stored))
      && |q.icons| == |p.icons| && |q.buttons| == |p.buttons|
      && (forall i :: 0 <= i < |q.icons| ==>
            (MoonIcon in q.icons[i].classes <==> dark) && (SunIcon in q.icons[i].classes <==> !dark))
      && (forall i :: 0 <= i < |q.buttons| ==> q.buttons[i].attrs[PressedAttr] == BoolText(dark))
  {
  }

  // ---------------------------------------------------------------------
  // The script, acting on the page in place

  class ThemeController {
    var stored: Option<string>
    var root: Element
    var body: Element
    var wrappers: seq<Element>
    var icons: seq<Element>
    var buttons: seq<Element>
    const inner: seq<Option<nat>>
    var loaded: bool    // the `DOMContentLoaded` handler has bound the clicks

    function Snapshot(): Page
      reads this
    {
      Page(stored, root, body, wrappers, icons, buttons, inner)
    }

    ghost predicate Valid()
      reads this
    {
      WellFormed(Snapshot())
    }

    constructor (p: Page)
      requires WellFormed(p)
      ensures Valid() && Snapshot() == p && !loaded
    {
      stored, root, body := p.stored, p.root, p.body;
      wrappers, icons, buttons, inner := p.wrappers, p.icons, p.buttons, p.inner;
      loaded := false;
    }

    method ApplyTheme(value: string)
      requires Valid()
      modifies this`root, this`wrappers, this`body, this`icons
      ensures Valid() && Snapshot() == Applied(old(Snapshot()), value)
    {
      var dark := value == "black";
      root := Shade(root, DarkClass, dark);
      var i := 0;
      while i < |wrappers|
        modifies this`wrappers
        invariant 0 <= i <= |wrappers| == |old(wrappers)|
        invariant forall j :: 0 <= j < |wrappers| ==>
          wrappers[j] == if j < i then Shade(old(wrappers)[j], DarkClass, dark) else old(wrappers)[j]
      {
        wrappers := wrappers[i := Shade(wrappers[i], DarkClass, dark)];
        i := i + 1;
      }
      body := Shade(body, BodyDarkClass, dark);
      i := 0;
      while i < |icons|
        modifies this`icons
        invariant 0 <= i <= |icons| == |old(icons)|
        invariant forall j :: 0 <= j < |icons| ==>
          icons[j] == if j < i then ShadeIcon(old(icons)[j], dark) else old(icons)[j]
      {
        icons := icons[i := ShadeIcon(icons[i], dark)];
        i := i + 1;
      }
    }

    /** Sets `aria-pressed` on every button. */
    method PressButtons(dark: bool)
      requires Valid()
      modifies this`buttons
      ensures Valid() && buttons == PressAll(old(buttons), dark)
    {
      var i := 0;
      while i < |buttons|
        invariant 0 <= i <= |buttons| == |old(buttons)|
        invariant forall j :: 0 <= j < |buttons| ==>
          buttons[j] == if j < i then Press(old(buttons)[j], dark) else old(buttons)[j]
      {
        buttons := buttons[i := Press(buttons[i], dark)];
        i := i + 1;
      }
    }

    method ToggleTheme()
      requires Valid()
      modifies this`stored, this`root, this`wrappers, this`body, this`icons, this`buttons
      ensures Valid() && Snapshot() == Toggled(old(Snapshot()))
    {
      var next := NextPreference(stored);
      stored := Some(next);
      ApplyTheme(next);
      PressButtons(next == "black");
    }

    /** The `DOMContentLoaded` handler, which also binds the buttons' clicks. */
    method Load()
      requires Valid()
      modifies this
      ensures Valid() && Snapshot() == Loaded(old(Snapshot())) && loaded
    {
      var pref := Preference(stored);
      var dark := pref == "black";
      ApplyTheme(pref);
      ghost var shown := icons;
      var b := 0;
      while b < |buttons|
        invariant Valid() && stored == old(stored)
        invariant 0 <= b <= |buttons| == |old(buttons)|
        invariant icons == shown
        invariant forall j :: 0 <= j < |buttons| ==>
          buttons[j] == if j < b then Press(old(buttons)[j], dark) else old(buttons)[j]
        invariant root == Applied(old(Snapshot()), pref).root && body == Applied(old(Snapshot()), pref).body
        invariant wrappers == Applied(old(Snapshot()), pref).wrappers && shown == Applied(old(Snapshot()), pref).icons
      {
        buttons := buttons[b := Press(buttons[b], dark)];
        if inner[b].Some? {
          var k := inner[b].value;
          ShadeIconOverrides(old(icons)[k], dark, dark);
          icons := icons[k := ShadeIcon(icons[k], dark)];
        }
        b := b + 1;
      }
      loaded := true;
    }

    /** A click on button `b`: the optimistic animation of its icon, then `toggleTheme`. */
    method Click(b: nat)
      requires Valid() && loaded && b < |buttons|
      modifies this`stored, this`root, this`wrappers, this`body, this`icons, this`buttons
      ensures Valid() && Snapshot() == Clicked(old(Snapshot()), b)
    {
      if inner[b].Some? {
        var k := inner[b].value;
        icons := icons[k := AddClass(ToggleClass(icons[k], MoonIcon), ToggleAnimation)];
      }
      ToggleTheme();
    }

    /** The 600 ms timer a click on button `b` started. */
    method AnimationEnded(b: nat)
      requires Valid() && loaded && b < |buttons| && inner[b].Some?
      modifies this`icons
      ensures Valid()
      ensures icons == old(icons)[inner[b].value := RemoveClass(old(icons)[inner[b].value], ToggleAnimation)]
    {
      var k := inner[b].value;
      icons := icons[k := RemoveClass(icons[k], ToggleAnimation)];
    }
  }
}
