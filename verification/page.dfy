/**
 * The scroll-and-layout part of the page state as one record with one
 * transition per event: the active section, the entrance flags, the nav
 * layout map, the underline, the measured section tops and the mobile flag.
 * An event's handler writes state; when the active section or the nav layout
 * map changed, the underline effect then re-targets the underline. The
 * typewriter, the project list and the notification share no state with it
 * and are modelled in their own modules.
 */
module Page {
  import opened Wrappers
  import opened Sections
  import Entrance
  import opened NavLayout
  import opened Scrolling

  datatype PageState = PageState(
    active: Section,
    entrance: Entrance.State,
    nav: NavMap,
    underline: Bar,
    offsets: map<Section, real>,
    mobile: bool)

  datatype Event =
    | Scrolled(y: real)
    | LinkLaidOut(link: Section, x: real, width: real)
    | LinkTextLaidOut(link: Section, textX: real, textWidth: real)
    | SectionLaidOut(section: Section, top: real)
    | Resized(windowWidth: real)

  /** The state on mount, for the window width at load. */
  function Init(windowWidth: real): PageState {
    PageState(Hero, Entrance.Init, map[], Bar(0.0, 0.0), map[], IsMobile(windowWidth))
  }

  /**
   * The state writes of an event's handler, before effects run. A scroll
   * sets the active section to the offset's classification and runs the
   * entrance checks; every other event writes only its own field; no handler
   * moves the underline.
   */
  function Handle(p: PageState, e: Event, h: real): (r: PageState)
    ensures r.underline == p.underline
    ensures e.Scrolled? ==>
      && r.active == Classify(e.y, h) && r.entrance == Entrance.OnScroll(p.entrance, e.y, h)
      && r.nav == p.nav && r.offsets == p.offsets && r.mobile == p.mobile
    ensures e.LinkLaidOut? ==> r == p.(nav := ContainerLaidOut(p.nav, e.link, e.x, e.width))
    ensures e.LinkTextLaidOut? ==> r == p.(nav := TextLaidOut(p.nav, e.link, e.textX, e.textWidth))
    ensures e.SectionLaidOut? ==>
      && r.offsets.Keys == p.offsets.Keys + {e.section} && r.offsets[e.section] == e.top
      && (forall s :: s in p.offsets && s != e.section ==> r.offsets[s] == p.offsets[s])
      && r.(offsets := p.offsets) == p
    ensures e.Resized? ==> r.mobile == (e.windowWidth < Breakpoint) && r.(mobile := p.mobile) == p
  {
    match e
    case Scrolled(y) =>
      p.(active := ActiveWrite(p.active, y, h).GetOr(p.active), entrance := Entrance.OnScroll(p.entrance, y, h))
    case LinkLaidOut(s, x, w) => p.(nav := ContainerLaidOut(p.nav, s, x, w))
    case LinkTextLaidOut(s, tx, tw) => p.(nav := TextLaidOut(p.nav, s, tx, tw))
    case SectionLaidOut(s, top) => p.(offsets := p.offsets[s := top])
    case Resized(w) => p.(mobile := IsMobile(w))
  }

  /**
   * One event: the handler, then the underline effect when one of its inputs
   * changed. Only the underline differs from the handler's writes; it moves
   * only when the active section or the layout map changed, and then to the
   * measured active link's target.
   */
  function Step(p: PageState, e: Event, h: real): (r: PageState)
    ensures r.(underline := p.underline) == Handle(p, e, h)
    ensures r.active == p.active && r.nav == p.nav ==> r.underline == p.underline
    ensures (r.active != p.active || r.nav != p.nav) && r.active in r.nav ==> r.underline == Target(r.nav[r.active])
  {
    var q := Handle(p, e, h);
    if q.active != p.active || q.nav != p.nav then q.(underline := UnderlineEffect(q.nav, q.active, p.underline))
    else q
  }

  /** The state after the events `es`, in order, from mount. */
  function Run(windowWidth: real, es: seq<Event>, h: real): PageState
    decreases |es|
  {
    if |es| == 0 then Init(windowWidth) else Step(Run(windowWidth, es[..|es| - 1], h), es[|es| - 1], h)
  }

  /** Once the active link is measured, the underline sits at that link's target. */
  ghost predicate UnderlineTracks(p: PageState) {
    p.active in p.nav ==> p.underline == Target(p.nav[p.active])
  }

  ghost predicate Good(p: PageState) {
    UnderlineTracks(p) && Entrance.Consistent(p.entrance)
  }

  lemma StepKeepsGood(p: PageState, e: Event, h: real)
    requires Good(p)
    ensures Good(Step(p, e, h))
  {
    if e.Scrolled? {
      Entrance.OnScrollMonotone(p.entrance, e.y, h, Entrance.About);
    }
  }

  /**
   * Along any event sequence from mount, the underline sits under the active
   * link whenever that link has been measured, and each entrance animation has
   * started once if its flag is raised and never otherwise.
   */
  lemma {:induction false} RunGood(windowWidth: real, es: seq<Event>, h: real)
    ensures Good(Run(windowWidth, es, h))
    decreases |es|
  {
    if |es| > 0 {
      RunGood(windowWidth, es[..|es| - 1], h);
      StepKeepsGood(Run(windowWidth, es[..|es| - 1], h), es[|es| - 1], h);
    }
  }

  /** While the active link has no measurement, no event moves the underline. */
  lemma UnmeasuredKeepsUnderline(p: PageState, e: Event, h: real)
    ensures Step(p, e, h).active !in Step(p, e, h).nav ==> Step(p, e, h).underline == p.underline
  {
  }

  /** A section's layout report records its measured top and leaves the rest of the page as it was. */
  lemma SectionLayoutRecordsTop(p: PageState, s: Section, top: real, h: real)
    ensures Step(p, SectionLaidOut(s, top), h) == p.(offsets := p.offsets[s := top])
  {
  }

  /** A resize decides the mobile layout from the new width alone and changes nothing else. */
  lemma ResizeSetsMobile(p: PageState, w: real, h: real)
    ensures Step(p, Resized(w), h).mobile == (w < 768.0)
    ensures Step(p, Resized(w), h).(mobile := p.mobile) == p
  {
  }

  /** After a scroll event the active section is the classification of its offset, and no other part of the layout changes. */
  lemma ScrollSetsActive(p: PageState, y: real, h: real)
    ensures Step(p, Scrolled(y), h).active == Classify(y, h)
    ensures Step(p, Scrolled(y), h).nav == p.nav && Step(p, Scrolled(y), h).offsets == p.offsets
  {
  }

  /** The block whose entrance animation belongs to a section; the hero has none. */
  function BlockOf(s: Section): Option<Entrance.Block> {
    match s
    case Hero => None
    case About => Some(Entrance.About)
    case Interests => Some(Entrance.Interests)
    case Projects => Some(Entrance.Projects)
    case Contact => Some(Entrance.Contact)
  }

  /** A nav press: the offset the page is scrolled to. */
  function ScrollRequest(p: PageState, s: Section, h: real): real {
    ScrollTarget(s, p.offsets, h, p.mobile)
  }

  /**
   * On a desktop layout, scrolling to a section that has not been measured
   * lands inside that section's band, so it becomes active, and passes its
   * entrance threshold, so its animation has run.
   */
  lemma FallbackTargetActivates(p: PageState, s: Section, h: real)
    requires h > 0.0 && s !in p.offsets && !p.mobile
    ensures var q := Step(p, Scrolled(ScrollRequest(p, s, h)), h);
      q.active == s && (BlockOf(s).Some? ==> q.entrance.flags.Get(BlockOf(s).value))
  {
    var y := ScrollRequest(p, s, h);
    NudgeOnlyForMobileContact(s, p.offsets, h, p.mobile);
    ScrollSetsActive(p, y, h);
    ClassifyIsBand(y, h, s);
  }
}
