/**
 * The active navigation section, derived on every scroll event from the
 * scroll offset `y` and the viewport height `h`.
 */
module Sections {
  import opened Wrappers

  /** The five navigable sections, in page order. */
  datatype Section = Hero | About | Interests | Projects | Contact

  /** Position of a section in page order, hero first. */
  function Index(s: Section): nat {
    match s
    case Hero => 0
    case About => 1
    case Interests => 2
    case Projects => 3
    case Contact => 4
  }

  /** First-match classification of the scroll offset, band edges at 0.5, 1.5, 2.5 and 3.5 viewport heights. */
  function Classify(y: real, h: real): (r: Section)
    ensures h >= 0.0 ==> InBand(r, y, h)
  {
    if y < h * 0.5 then Hero
    else if y < h * 1.5 then About
    else if y < h * 2.5 then Interests
    else if y < h * 3.5 then Projects
    else Contact
  }

  /** The band of offsets that belongs to `s`: at or past its lower edge and short of its upper one. */
  predicate InBand(s: Section, y: real, h: real) {
    match s
    case Hero => y < h * 0.5
    case About => h * 0.5 <= y < h * 1.5
    case Interests => h * 1.5 <= y < h * 2.5
    case Projects => h * 2.5 <= y < h * 3.5
    case Contact => h * 3.5 <= y
  }

  /** How many band edges the offset has reached. */
  function EdgesPassed(y: real, h: real): nat {
    (if y >= h * 0.5 then 1 else 0) + (if y >= h * 1.5 then 1 else 0)
    + (if y >= h * 2.5 then 1 else 0) + (if y >= h * 3.5 then 1 else 0)
  }

  /** For a non-negative viewport height the classification picks exactly the section whose band holds `y`. */
  lemma ClassifyIsBand(y: real, h: real, s: Section)
    requires h >= 0.0
    ensures Classify(y, h) == s <==> InBand(s, y, h)
  {
  }

  /** The section's position in page order is the number of band edges passed. */
  lemma ClassifyCountsEdges(y: real, h: real)
    requires h >= 0.0
    ensures Index(Classify(y, h)) == EdgesPassed(y, h)
  {
  }

  /** Scrolling further down never moves the active section back up the page. */
  lemma ClassifyMonotone(y1: real, y2: real, h: real)
    requires h >= 0.0
    requires y1 <= y2
    ensures Index(Classify(y1, h)) <= Index(Classify(y2, h))
  {
    ClassifyCountsEdges(y1, h);
    ClassifyCountsEdges(y2, h);
  }

  /** From 3.5 viewport heights on, the active section is always contact. */
  lemma ClassifySaturates(y: real, h: real)
    requires h >= 0.0
    requires y >= h * 3.5
    ensures Classify(y, h) == Contact
  {
  }

  /**
   * The state write a scroll event performs on the active section: the new
   * classification when it differs from `current`, and no write at all otherwise.
   */
  function ActiveWrite(current: Section, y: real, h: real): (w: Option<Section>)
    ensures w == None <==> Classify(y, h) == current
    ensures w.Some? ==> w.value == Classify(y, h) && w.value != current
  {
    var s := Classify(y, h);
    if s != current then Some(s) else None
  }

  /** Whatever the previous active section, after a scroll event it is the classification of the new offset. */
  lemma ActiveAfterScroll(current: Section, y: real, h: real)
    ensures ActiveWrite(current, y, h).GetOr(current) == Classify(y, h)
  {
  }
}
