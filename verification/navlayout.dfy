/**
 * The navigation underline. Every nav link reports two layouts: its pressable
 * container (`x`, `width`) and, optionally, its text (`textX`, `textWidth`,
 * relative to the container). The underline's target is computed from the
 * active link's entry: the text box when both text fields are known, the
 * container box otherwise, shrunk by 10 and centred.
 */
module NavLayout {
  import opened Wrappers
  import opened JsMath
  import opened Sections

  datatype NavPos = NavPos(x: real, width: real, textX: Option<real>, textWidth: Option<real>)

  /** The measured positions, keyed by link. */
  type NavMap = map<Section, NavPos>

  /** Where the underline is animated to. */
  datatype Bar = Bar(left: real, width: real)

  /** Total amount the bar is narrower than the box it sits under. */
  const Shrink: real := 10.0

  predicate HasText(p: NavPos) {
    p.textWidth.Some? && p.textX.Some?
  }

  /** Left edge of the box the bar is fitted to. */
  function BoxLeft(p: NavPos): real {
    if HasText(p) then p.x + p.textX.value else p.x
  }

  /** Width of the box the bar is fitted to. */
  function BoxWidth(p: NavPos): real {
    if HasText(p) then p.textWidth.value else p.width
  }

  /**
   * The underline target for one link. The bar is the box less 10 (never
   * negative); a box at least 10 wide loses exactly 5 on each side, a
   * narrower one collapses to a point at its rounded middle, and in every
   * case the two margins differ by at most 1 (rounding).
   */
  function Target(p: NavPos): (b: Bar)
    ensures b.width == Max(0.0, BoxWidth(p) - Shrink)
    ensures BoxWidth(p) >= Shrink ==>
      b.left == BoxLeft(p) + 5.0 && b.left + b.width == BoxLeft(p) + BoxWidth(p) - 5.0
    ensures BoxWidth(p) < Shrink ==> b.width == 0.0 && b.left == BoxLeft(p) + Round(BoxWidth(p) / 2.0) as real
    ensures -1.0 < (b.left - BoxLeft(p)) - ((BoxLeft(p) + BoxWidth(p)) - (b.left + b.width)) <= 1.0
  {
    if HasText(p) then
      var w := Max(0.0, p.textWidth.value - Shrink);
      Bar(p.x + p.textX.value + Round((p.textWidth.value - w) / 2.0) as real, w)
    else
      var w := Max(0.0, p.width - Shrink);
      Bar(p.x + Round((p.width - w) / 2.0) as real, w)
  }

  /** The two worked examples: a container box and a text box. */
  lemma TargetExamples()
    ensures Target(NavPos(100.0, 80.0, None, None)) == Bar(105.0, 70.0)
    ensures Target(NavPos(100.0, 80.0, Some(10.0), Some(40.0))) == Bar(115.0, 30.0)
    ensures Target(NavPos(100.0, 80.0, Some(10.0), None)) == Bar(105.0, 70.0)
  {
  }

  /**
   * The underline effect: the active link's target, or the current position
   * unchanged when that link has not been measured yet.
   */
  function UnderlineEffect(nav: NavMap, active: Section, current: Bar): (b: Bar)
    ensures active !in nav ==> b == current
    ensures active in nav ==> b == Target(nav[active])
  {
    if active in nav then Target(nav[active]) else current
  }

  /**
   * The container `onLayout` updater. Equal `x` and `width` leave the map as it
   * was; otherwise the link's entry becomes the bare container box and its
   * text fields are dropped. No other link's entry changes.
   */
  function ContainerLaidOut(prev: NavMap, s: Section, x: real, w: real): (m: NavMap)
    ensures m.Keys == prev.Keys + {s}
    ensures forall t :: t in prev && t != s ==> m[t] == prev[t]
    ensures m[s].x == x && m[s].width == w
    ensures m == prev <==> s in prev && prev[s].x == x && prev[s].width == w
    ensures m != prev ==> m[s].textX == None && m[s].textWidth == None
  {
    if s in prev && prev[s].x == x && prev[s].width == w then prev
    else prev[s := NavPos(x, w, None, None)]
  }

  /**
   * The text `onLayout` updater. Equal text fields leave the map as it was;
   * otherwise the link keeps its container `x` and `width` (0 and the text
   * width when it had no entry) and takes the new text fields. No other link's
   * entry changes.
   */
  function TextLaidOut(prev: NavMap, s: Section, tx: real, tw: real): (m: NavMap)
    ensures m.Keys == prev.Keys + {s}
    ensures forall t :: t in prev && t != s ==> m[t] == prev[t]
    ensures m[s].textX == Some(tx) && m[s].textWidth == Some(tw)
    ensures m == prev <==> s in prev && prev[s].textX == Some(tx) && prev[s].textWidth == Some(tw)
    ensures s in prev ==> m[s].x == prev[s].x && m[s].width == prev[s].width
    ensures s !in prev ==> m[s].x == 0.0 && m[s].width == tw
  {
    if s in prev && prev[s].textWidth == Some(tw) && prev[s].textX == Some(tx) then prev
    else
      var existing := if s in prev then Some(prev[s]) else None;
      var x := if existing.Some? then existing.value.x else 0.0;
      var w := if existing.Some? then existing.value.width else tw;
      prev[s := NavPos(x, w, Some(tx), Some(tw))]
  }

  /** Reporting the same container layout twice changes nothing the second time. */
  lemma ContainerIdempotent(prev: NavMap, s: Section, x: real, w: real)
    ensures ContainerLaidOut(ContainerLaidOut(prev, s, x, w), s, x, w) == ContainerLaidOut(prev, s, x, w)
  {
  }

  /** Reporting the same text layout twice changes nothing the second time. */
  lemma TextIdempotent(prev: NavMap, s: Section, tx: real, tw: real)
    ensures TextLaidOut(TextLaidOut(prev, s, tx, tw), s, tx, tw) == TextLaidOut(prev, s, tx, tw)
  {
  }

  /** Once a link's text is measured, its underline is fitted to the text box, offset by the container's `x`. */
  lemma TextLayoutUsesTextBox(prev: NavMap, s: Section, tx: real, tw: real)
    ensures var m := TextLaidOut(prev, s, tx, tw);
      BoxLeft(m[s]) == m[s].x + tx && BoxWidth(m[s]) == tw
  {
  }

  /**
   * A container layout that moves or resizes a link discards its text
   * measurement, so the underline falls back to the container box until the
   * text is measured again.
   */
  lemma MovedContainerFallsBack(prev: NavMap, s: Section, x: real, w: real)
    requires s in prev && (prev[s].x != x || prev[s].width != w)
    ensures var m := ContainerLaidOut(prev, s, x, w);
      !HasText(m[s]) && Target(m[s]) == Target(NavPos(x, w, None, None))
  {
  }
}
