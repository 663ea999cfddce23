/** The product-cards section's slider set-up: each `.swiper-container` of the
    section carries its settings as `data-*` strings, which are decoded into a
    settings record, turned into the options the slider library is built
    with, and guarded by a per-container marker against a second
    initialisation. The slider library itself is opaque: a container's marker
    records the options its slider was built with, and whether `new Swiper`
    succeeds for a container is an input. */
module ProductCarousel {
  import opened Dom
  import opened JsNumbers

  const DefaultInterval := 3000

  /** `attr === 'true' || attr === '1'` */
  predicate AttrOn(a: Option<string>) {
    a == Some("true") || a == Some("1")
  }

  datatype Settings = Settings(autoplay: bool, interval: int, showDots: bool)

  /** The three `data-*` attributes of a container, decoded. */
  function DecodeSettings(c: Element): Settings {
    Settings(
      AttrOn(GetAttribute(c, "data-autoplay")),
      OrDefault(ParseIntAttr(GetAttribute(c, "data-autoplay-interval")), DefaultInterval),
      AttrOn(GetAttribute(c, "data-show-dots")))
  }

  /** How a section template writes the settings onto a container. */
  function WithSettings(c: Element, s: Settings): Element {
    var a := SetAttribute(c, "data-autoplay", BoolText(s.autoplay));
    var b := SetAttribute(a, "data-autoplay-interval", IntToString(s.interval));
    SetAttribute(b, "data-show-dots", BoolText(s.showDots))
  }

  /** Both flags are on exactly for the strings "true" and "1"; "false", "yes",
      "TRUE" and a missing attribute all leave them off. */
  lemma FlagsDecode(c: Element)
    ensures DecodeSettings(c).autoplay <==> "data-autoplay" in c.attrs && c.attrs["data-autoplay"] in {"true", "1"}
    ensures DecodeSettings(c).showDots <==> "data-show-dots" in c.attrs && c.attrs["data-show-dots"] in {"true", "1"}
  {
  }

  /** The interval is 3000 when its attribute is missing, holds no digit or
      reads as 0, and otherwise the number its text starts with. */
  lemma IntervalDecodes(c: Element)
    ensures !HasAttribute(c, "data-autoplay-interval") ==> DecodeSettings(c).interval == DefaultInterval
    ensures HasAttribute(c, "data-autoplay-interval")
      && (forall i :: 0 <= i < |c.attrs["data-autoplay-interval"]| ==> !IsDigit(c.attrs["data-autoplay-interval"][i]))
      ==> DecodeSettings(c).interval == DefaultInterval
    ensures GetAttribute(c, "data-autoplay-interval") == Some("0") ==> DecodeSettings(c).interval == DefaultInterval
    ensures forall n :: ParseIntAttr(GetAttribute(c, "data-autoplay-interval")) == Some(n) && n != 0 ==>
      DecodeSettings(c).interval == n
  {
    if !HasAttribute(c, "data-autoplay-interval") {
      ParseIntMissing();
    } else {
      var a := c.attrs["data-autoplay-interval"];
      if forall i :: 0 <= i < |a| ==> !IsDigit(a[i]) {
        ParseIntNoDigits(a);
      }
      if a == "0" {
        assert a == IntToString(0);
        ParseIntRoundTrip(0);
      }
    }
  }

  /** Settings written by the template decode back to themselves, for any
      non-zero interval (a zero interval decodes as the default). */
  lemma DecodeWritten(c: Element, s: Settings)
    ensures DecodeSettings(WithSettings(c, s)) == if s.interval == 0 then s.(interval := DefaultInterval) else s
  {
    var e := WithSettings(c, s);
    assert GetAttribute(e, "data-autoplay") == Some(BoolText(s.autoplay));
    assert GetAttribute(e, "data-show-dots") == Some(BoolText(s.showDots));
    assert GetAttribute(e, "data-autoplay-interval") == Some(IntToString(s.interval));
    ParseIntRoundTrip(s.interval);
  }

  // ---------------------------------------------------------------------
  // Slider options

  /** The coverflow constants, kept as they are given to the library. */
  datatype Coverflow = Coverflow(rotate: int, stretch: int, depth: int, modifier: int, slideShadows: bool)

  const SectionCoverflow := Coverflow(20, 0, 350, 1, true)

  /** `pagination: false`, or `{el, clickable}` with the container's
      `.swiper-pagination` element if it has one. */
  datatype Pagination = PaginationOff | PaginationOn(el: Option<Element>, clickable: bool)

  datatype AutoplayOptions = AutoplayOptions(delay: int, disableOnInteraction: bool)

  datatype SwiperOptions = SwiperOptions(
    effect: string,
    grabCursor: bool,
    centeredSlides: bool,
    slidesPerView: string,
    coverflowEffect: Coverflow,
    pagination: Pagination,
    autoplay: Option<AutoplayOptions>)

  /** The options object built from decoded settings. */
  function Options(s: Settings, paginationEl: Option<Element>): SwiperOptions {
    var base := SwiperOptions("coverflow", true, true, "auto", SectionCoverflow,
      if s.showDots then PaginationOn(paginationEl, true) else PaginationOff, None);
    if s.autoplay then base.(autoplay := Some(AutoplayOptions(s.interval, false))) else base
  }

  /** What the options carry, read from the container's attributes: pagination
      exactly when dots are on, an autoplay entry exactly when autoplay is on
      with the decoded interval as its delay, and the fixed coverflow look. */
  lemma OptionsFollowAttributes(c: Element, paginationEl: Option<Element>)
    ensures var o := Options(DecodeSettings(c), paginationEl);
      && o.effect == "coverflow" && o.grabCursor && o.centeredSlides && o.slidesPerView == "auto"
      && o.coverflowEffect == SectionCoverflow
      && (o.pagination == PaginationOff <==> !AttrOn(GetAttribute(c, "data-show-dots")))
      && (o.pagination.PaginationOn? ==> o.pagination == PaginationOn(paginationEl, true))
      && (o.autoplay.Some? <==> AttrOn(GetAttribute(c, "data-autoplay")))
      && (o.autoplay.Some? ==>
            o.autoplay.value ==
            AutoplayOptions(OrDefault(ParseIntAttr(GetAttribute(c, "data-autoplay-interval")), DefaultInterval), false))
  {
  }

  // ---------------------------------------------------------------------
  // Containers

  /** A slider instance, known only by the options it was built with. */
  datatype Slider = Slider(options: SwiperOptions)

  /** A container with its `.swiper-pagination` child, the `__productCardsSwiper`
      marker and the `__productCardsSwiperOptions` debugging copy. */
  datatype Container = Container(el: Element, paginationEl: Option<Element>, marker: Option<Slider>, exposed: Option<SwiperOptions>)

  /** One turn of the `forEach`; `built` says whether `new Swiper` returned. */
  function InitOne(c: Container, built: bool): Container {
    if c.marker.Some? then c
    else
      var o := Options(DecodeSettings(c.el), c.paginationEl);
      if built then c.(marker := Some(Slider(o)), exposed := Some(o)) else c
  }

  /** The `DOMContentLoaded` handler over all containers of the section. */
  function InitAll(cs: seq<Container>, swiperDefined: bool, built: seq<bool>): (r: seq<Container>)
    requires |built| == |cs|
    ensures |r| == |cs|
  {
    if |cs| == 0 || !swiperDefined then cs
    else seq(|cs|, i requires 0 <= i < |cs| => InitOne(cs[i], built[i]))
  }

  /** A container already marked is skipped; an unmarked one is marked exactly
      when its slider was built, with the options decoded from its attributes,
      and a failed construction leaves it as it was. Without the library
      nothing changes. */
  lemma InitAllMarks(cs: seq<Container>, swiperDefined: bool, built: seq<bool>)
    requires |built| == |cs|
    ensures var r := InitAll(cs, swiperDefined, built);
      forall i :: 0 <= i < |cs| ==>
        && r[i].el == cs[i].el && r[i].paginationEl == cs[i].paginationEl
        && (cs[i].marker.Some? ==> r[i] == cs[i])
        && (r[i].marker.Some? <==> cs[i].marker.Some? || (swiperDefined && built[i]))
        && (cs[i].marker.None? && r[i].marker.Some? ==>
              var o := Options(DecodeSettings(cs[i].el), cs[i].paginationEl);
              r[i].marker == Some(Slider(o)) && r[i].exposed == Some(o))
        && (cs[i].marker.None? && !(swiperDefined && built[i]) ==> r[i] == cs[i])
  {
  }

  /** A second run (the handler fired again) leaves every container the first
      run marked untouched, whatever the constructor does this time. */
  lemma {:induction false} SecondRunSkips(cs: seq<Container>, built: seq<bool>, again: seq<bool>)
    requires |built| == |cs| == |again|
    ensures var once := InitAll(cs, true, built);
      var twice := InitAll(once, true, again);
      forall i :: 0 <= i < |cs| && once[i].marker.Some? ==> twice[i] == once[i]
  {
    var once := InitAll(cs, true, built);
    InitAllMarks(once, true, again);
  }

  /** When every construction succeeds, running the handler twice is the same
      as running it once. */
  lemma InitAllIdempotent(cs: seq<Container>, built: seq<bool>, again: seq<bool>)
    requires |built| == |cs| == |again|
    requires forall i :: 0 <= i < |built| ==> built[i]
    ensures InitAll(InitAll(cs, true, built), true, again) == InitAll(cs, true, built)
  {
    var once := InitAll(cs, true, built);
    InitAllMarks(cs, true, built);
    SecondRunSkips(cs, built, again);
    if |cs| > 0 {
      assert forall i :: 0 <= i < |cs| ==> once[i].marker.Some?;
    }
  }

  /** The body of the `forEach`: skip a marked container, otherwise decode
      its settings, build the options and, when `new Swiper` returns, set the
      marker and the debugging copy. */
  method SetUpContainer(c: Container, built: bool) returns (d: Container)
    ensures d == InitOne(c, built)
  {
    d := c;
    if c.marker.Some? {
      return;
    }
    var settings := DecodeSettings(c.el);
    var options := Options(settings, c.paginationEl);
    if built {
      d := c.(marker := Some(Slider(options)), exposed := Some(options));
    }
  }

  /** The section's containers, whose markers the handler sets in place. */
  class CarouselSection {
    var containers: seq<Container>

    constructor (cs: seq<Container>)
      ensures containers == cs
    {
      containers := cs;
    }

    /** The `DOMContentLoaded` handler; `built[i]` says whether `new Swiper`
        returns for container `i` or throws. */
    method Initialize(swiperDefined: bool, built: seq<bool>)
      requires |built| == |containers|
      modifies this`containers
      ensures containers == InitAll(old(containers), swiperDefined, built)
    {
      if |containers| == 0 {
        return;
      }
      if !swiperDefined {
        return;
      }
      var i := 0;
      while i < |containers|
        invariant 0 <= i <= |containers| == |old(containers)|
        invariant forall j :: 0 <= j < |containers| ==>
          containers[j] == if j < i then InitOne(old(containers)[j], built[j]) else old(containers)[j]
      {
        var c := SetUpContainer(containers[i], built[i]);
        containers := containers[i := c];
        i := i + 1;
      }
    }
  }
}
