/**
 * The `Hoverable` pressable wrapper, used by the nav links, the hero buttons,
 * the project links and the contact and social buttons (the hamburger toggle
 * and the mobile-menu items are plain pressables without it). It tracks whether
 * the mouse is over it and whether it is held down, and picks its
 * background and text colours by precedence: the press colour while pressed,
 * else the hover colour while hovered, else the control's own colour. A
 * missing or empty override colour does not count.
 */
module Hoverable {
  import opened Wrappers

  type Colour = Option<string>

  /** A colour that takes effect: present and non-empty. */
  predicate Given(c: Colour) {
    c.Some? && c.value != ""
  }

  datatype Interaction = Interaction(hovered: bool, pressed: bool)

  datatype InteractionEvent = HoverIn | HoverOut | PressIn | PressOut

  /** A control nobody is hovering over or holding down, as on mount. */
  const Untouched := Interaction(false, false)

  /** The four handlers: hover events set only `hovered`, press events only `pressed`. */
  function Handle(p: Interaction, e: InteractionEvent): (r: Interaction)
    ensures (e == HoverIn || e == HoverOut) ==> r.hovered == (e == HoverIn) && r.pressed == p.pressed
    ensures (e == PressIn || e == PressOut) ==> r.pressed == (e == PressIn) && r.hovered == p.hovered
  {
    match e
    case HoverIn => p.(hovered := true)
    case HoverOut => p.(hovered := false)
    case PressIn => p.(pressed := true)
    case PressOut => p.(pressed := false)
  }

  /** The override colours a control may declare, and its own colour. */
  datatype Palette = Palette(press: Colour, hover: Colour, base: Colour)

  /**
   * The colour in effect; the same rule picks both the background and the
   * text colour. An active press colour wins; failing that an active hover
   * colour; failing both, the control's own colour.
   */
  function Pick(p: Interaction, pal: Palette): (c: Colour)
    ensures c == pal.press || c == pal.hover || c == pal.base
    ensures p.pressed && Given(pal.press) ==> c == pal.press
    ensures !(p.pressed && Given(pal.press)) && p.hovered && Given(pal.hover) ==> c == pal.hover
    ensures !(p.pressed && Given(pal.press)) && !(p.hovered && Given(pal.hover)) ==> c == pal.base
  {
    if p.pressed && Given(pal.press) then pal.press
    else if p.hovered && Given(pal.hover) then pal.hover
    else pal.base
  }

  /** A held press with a press colour shows it, hovered or not. */
  lemma PressWins(p: Interaction, pal: Palette)
    requires p.pressed && Given(pal.press)
    ensures Pick(p, pal) == pal.press
    ensures Pick(p.(hovered := !p.hovered), pal) == pal.press
  {
  }

  /** An inactive override never matters: the colour does not depend on it. */
  lemma InactiveOverridesIgnored(p: Interaction, pal: Palette, other: Colour)
    ensures !p.pressed ==> Pick(p, pal) == Pick(p, pal.(press := other))
    ensures !p.hovered ==> Pick(p, pal) == Pick(p, pal.(hover := other))
  {
  }

  /** An empty override falls through to the next rule, as if the control were not in that state. */
  lemma EmptyOverrideFallsThrough(p: Interaction, pal: Palette)
    ensures !Given(pal.press) ==> Pick(p, pal) == Pick(p.(pressed := false), pal)
    ensures !Given(pal.hover) ==> Pick(p, pal) == Pick(p.(hovered := false), pal)
  {
  }

  /** Hovering without an active press colour shows the hover colour, held or not. */
  lemma HoverWins(p: Interaction, pal: Palette)
    requires p.hovered && Given(pal.hover) && !Given(pal.press)
    ensures Pick(p, pal) == pal.hover
    ensures Pick(p.(pressed := !p.pressed), pal) == pal.hover
  {
  }

  /** Leaving and releasing, in either order, restores the control's own colour. */
  lemma LeaveAndReleaseRestoreBase(p: Interaction, pal: Palette)
    ensures Pick(Handle(Handle(p, HoverOut), PressOut), pal) == pal.base
    ensures Pick(Handle(Handle(p, PressOut), HoverOut), pal) == pal.base
    ensures Handle(Handle(p, HoverOut), PressOut) == Untouched == Handle(Handle(p, PressOut), HoverOut)
  {
  }
}
