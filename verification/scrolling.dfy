/**
 * Where a nav press scrolls to: the section's measured top when it has been
 * laid out, a fixed table of viewport-height multiples otherwise, nudged
 * further down for contact on a mobile layout, and never above the page top.
 */
module Scrolling {
  import opened JsMath
  import opened Sections

  /** Window widths below this are a mobile layout. */
  const Breakpoint: real := 768.0
  /** Approximate height of the fixed nav bar. */
  const NavbarHeight: real := 64.0
  /** The extra push added to the mobile contact nudge. */
  const ExtraNudge: real := 60.0

  predicate IsMobile(windowWidth: real) {
    windowWidth < Breakpoint
  }

  /** 767 is a mobile width, 768 is not. */
  lemma BreakpointEdge()
    ensures IsMobile(767.0) && !IsMobile(768.0)
  {
  }

  /** The fallback offset of each section, used while it has not been measured. */
  function Fallback(s: Section, h: real): real {
    match s
    case Hero => 0.0
    case About => h * 0.95
    case Interests => h * 1.95
    case Projects => h * 2.95
    case Contact => h * 3.85
  }

  /** The measured top when there is one, the fallback otherwise. */
  function BaseOffset(s: Section, offsets: map<Section, real>, h: real): real {
    if s in offsets then offsets[s] else Fallback(s, h)
  }

  /** The push added to the contact target on a mobile layout. */
  function MobileNudge(h: real): real {
    Round(h * 1.5) as real - NavbarHeight + ExtraNudge
  }

  /** The offset before clamping. */
  function Unclamped(s: Section, offsets: map<Section, real>, h: real, mobile: bool): real {
    BaseOffset(s, offsets, h) + (if mobile && s == Contact then MobileNudge(h) else 0.0)
  }

  /**
   * The scroll target: never negative, equal to the unclamped offset whenever
   * that is not negative, and the page top otherwise.
   */
  function ScrollTarget(s: Section, offsets: map<Section, real>, h: real, mobile: bool): (y: real)
    ensures y >= 0.0
    ensures Unclamped(s, offsets, h, mobile) >= 0.0 ==> y == Unclamped(s, offsets, h, mobile)
    ensures Unclamped(s, offsets, h, mobile) < 0.0 ==> y == 0.0
  {
    var offset := BaseOffset(s, offsets, h);
    var offset' := if mobile && s == Contact then offset + MobileNudge(h) else offset;
    Max(0.0, offset')
  }

  /** Away from mobile contact, the target is the base offset, clamped at the top. */
  lemma NudgeOnlyForMobileContact(s: Section, offsets: map<Section, real>, h: real, mobile: bool)
    requires !mobile || s != Contact
    ensures ScrollTarget(s, offsets, h, mobile) == Max(0.0, BaseOffset(s, offsets, h))
  {
  }

  /** A measured, non-negative top is the target exactly, whatever the viewport height. */
  lemma MeasuredTopWins(s: Section, offsets: map<Section, real>, h: real, mobile: bool)
    requires s in offsets && offsets[s] >= 0.0
    requires !mobile || s != Contact
    ensures ScrollTarget(s, offsets, h, mobile) == offsets[s]
  {
  }

  /** For any viewport at least 3 high, the mobile contact target lies at or below the desktop one. */
  lemma MobileContactIsLower(offsets: map<Section, real>, h: real)
    requires h >= 3.0
    ensures ScrollTarget(Contact, offsets, h, true) >= ScrollTarget(Contact, offsets, h, false)
  {
    assert Round(h * 1.5) as real > h * 1.5 - 0.5 >= 4.0;
  }
}
