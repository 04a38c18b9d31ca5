/**
 * The single-slot copy notification. A message slides in from off-screen,
 * stays for a dwell time, slides out and is cleared. Showing a message stops
 * whatever animation or dwell timer is pending and restarts the slide with the
 * new message: there is no queue, the latest message wins.
 *
 * Animation completions and the dwell timer are callbacks delivered as
 * events; a callback that was cancelled is one that is no longer pending, and
 * delivering it changes nothing.
 */
module Notification {

  datatype Toast = Hidden | SlidingIn(message: string) | Visible(message: string) | SlidingOut(message: string)

  /** The callbacks the toast can be waiting for. */
  datatype Callback = SlideInEnd | DwellEnd | SlideOutEnd

  datatype Event = Show(text: string) | Fire(callback: Callback)

  /** Slide offset of the toast when fully off-screen and when fully shown. */
  const OffScreen: real := 300.0
  const OnScreen: real := 0.0

  /** The message state: empty when nothing is shown. */
  function Displayed(t: Toast): string {
    if t.Hidden? then "" else t.message
  }

  /** The callbacks currently scheduled. */
  function Pending(t: Toast): set<Callback> {
    match t
    case Hidden => {}
    case SlidingIn(_) => {SlideInEnd}
    case Visible(_) => {DwellEnd}
    case SlidingOut(_) => {SlideOutEnd}
  }

  /** The slide offset at which the toast's current phase begins. */
  function PhaseStart(t: Toast): real {
    match t
    case Hidden => OffScreen
    case SlidingIn(_) => OffScreen
    case Visible(_) => OnScreen
    case SlidingOut(_) => OnScreen
  }

  /**
   * Showing `m`: the displayed message is `m`, every previously pending
   * callback is cancelled so only the new slide-in is pending, and the slide
   * restarts from off-screen.
   */
  function ShowMessage(t: Toast, m: string): (r: Toast)
    ensures Displayed(r) == m
    ensures Pending(r) == {SlideInEnd}
    ensures PhaseStart(r) == OffScreen
  {
    SlidingIn(m)
  }

  /**
   * The toast after one event. A show always takes over with its own
   * message; a callback acts exactly when it is pending, and then either
   * moves the same message on or clears it. The end of the slide-in starts
   * the dwell, only the end of the dwell starts the slide-out, and the end of
   * the slide-out hides the toast.
   */
  function Step(t: Toast, e: Event): (r: Toast)
    ensures e.Show? ==> Displayed(r) == e.text && Pending(r) == {SlideInEnd}
    ensures e.Fire? ==> (r != t <==> e.callback in Pending(t))
    ensures e.Fire? && !r.Hidden? ==> Displayed(r) == Displayed(t)
    ensures t.SlidingIn? && e == Fire(SlideInEnd) ==> r.Visible?
    ensures t.Visible? && e == Fire(DwellEnd) ==> r.SlidingOut?
    ensures t.SlidingOut? && e == Fire(SlideOutEnd) ==> r.Hidden?
  {
    match e
    case Show(m) => ShowMessage(t, m)
    case Fire(c) =>
      match t
      case SlidingIn(m) => if c == SlideInEnd then Visible(m) else t
      case Visible(m) => if c == DwellEnd then SlidingOut(m) else t
      case SlidingOut(m) => if c == SlideOutEnd then Hidden else t
      case Hidden => t
  }

  /** A callback that is not pending has no effect, and one that is advances the toast. */
  lemma OnlyPendingCallbacksAct(t: Toast, c: Callback)
    ensures c !in Pending(t) ==> Step(t, Fire(c)) == t
    ensures c in Pending(t) ==> Step(t, Fire(c)) != t
  {
  }

  /** The message whose slide-out completes on event `e`, if any. */
  function Dismissed(t: Toast, e: Event): seq<string> {
    if t.SlidingOut? && e == Fire(SlideOutEnd) then [t.message] else []
  }

  function Run(t: Toast, es: seq<Event>): Toast
    decreases |es|
  {
    if |es| == 0 then t else Run(Step(t, es[0]), es[1..])
  }

  /** Every message that reaches the end of its slide-out during `es`, in order. */
  function Dismissals(t: Toast, es: seq<Event>): seq<string>
    decreases |es|
  {
    if |es| == 0 then [] else Dismissed(t, es[0]) + Dismissals(Step(t, es[0]), es[1..])
  }

  predicate NoShow(es: seq<Event>) {
    forall i :: 0 <= i < |es| ==> es[i].Fire?
  }

  /** The toast shows `m` or nothing. */
  predicate Owned(t: Toast, m: string) {
    t.Hidden? || t.message == m
  }

  /**
   * Without another show, a toast owned by `m` stays owned by `m`, and at most
   * one dismissal happens, of `m`.
   */
  lemma {:induction false} OwnedRun(t: Toast, m: string, es: seq<Event>)
    requires Owned(t, m) && NoShow(es)
    ensures Owned(Run(t, es), m)
    ensures |Dismissals(t, es)| <= 1
    ensures forall i :: 0 <= i < |Dismissals(t, es)| ==> Dismissals(t, es)[i] == m
    ensures t.Hidden? ==> Dismissals(t, es) == []
    decreases |es|
  {
    if |es| > 0 {
      assert NoShow(es[1..]) by {
        forall i | 0 <= i < |es[1..]|
          ensures es[1..][i].Fire?
        {
          assert es[1..][i] == es[i + 1];
        }
      }
      OwnedRun(Step(t, es[0]), m, es[1..]);
      if t.SlidingOut? && es[0] == Fire(SlideOutEnd) {
        assert Step(t, es[0]).Hidden?;
      }
    }
  }

  /** After `show(m)`, whatever callbacks follow, only `m` is ever shown or dismissed, and at most once. */
  lemma LatestMessageWins(t: Toast, m: string, es: seq<Event>)
    requires NoShow(es)
    ensures Owned(Run(Step(t, Show(m)), es), m)
    ensures |Dismissals(Step(t, Show(m)), es)| <= 1
    ensures forall i :: 0 <= i < |Dismissals(Step(t, Show(m)), es)| ==> Dismissals(Step(t, Show(m)), es)[i] == m
  {
    OwnedRun(Step(t, Show(m)), m, es);
  }

  /** Showing `a` and then `b` before `a` is dismissed: `a` never reaches its own dismissal. */
  lemma EarlierMessageNeverDismissed(t: Toast, a: string, b: string, es: seq<Event>)
    requires a != b && NoShow(es)
    ensures a !in Dismissals(t, [Show(a), Show(b)] + es)
  {
    var all := [Show(a), Show(b)] + es;
    assert all[1..] == [Show(b)] + es;
    assert ([Show(b)] + es)[1..] == es;
    OwnedRun(Step(Step(t, Show(a)), Show(b)), b, es);
    assert Dismissals(t, all) == Dismissals(Step(Step(t, Show(a)), Show(b)), es);
  }

  /** An undisturbed message goes through the whole cycle and is dismissed once. */
  lemma FullCycle(t: Toast, m: string)
    ensures var es := [Show(m), Fire(SlideInEnd), Fire(DwellEnd), Fire(SlideOutEnd)];
      && Run(t, es[..1]) == SlidingIn(m)
      && Run(t, es[..2]) == Visible(m)
      && Run(t, es[..3]) == SlidingOut(m)
      && Run(t, es) == Hidden && Dismissals(t, es) == [m]
  {
    var es := [Show(m), Fire(SlideInEnd), Fire(DwellEnd), Fire(SlideOutEnd)];
    assert es[..1][1..] == [] && es[..2][1..] == [Fire(SlideInEnd)] && es[..3][1..] == [Fire(SlideInEnd), Fire(DwellEnd)];
    assert Run(Visible(m), []) == Visible(m);
    assert Run(SlidingIn(m), [Fire(SlideInEnd)]) == Visible(m);
    assert Run(t, es[..2]) == Run(SlidingIn(m), [Fire(SlideInEnd)]);
    assert Run(Visible(m), [Fire(DwellEnd)]) == SlidingOut(m);
    assert Run(SlidingIn(m), [Fire(SlideInEnd), Fire(DwellEnd)]) == SlidingOut(m);
    var e1, e2, e3 := es[1..], es[2..], es[3..];
    assert e1[1..] == e2 && e2[1..] == e3 && e3[1..] == [];
    assert Run(Hidden, []) == Hidden && Dismissals(Hidden, []) == [];
    assert Run(SlidingOut(m), e3) == Hidden && Dismissals(SlidingOut(m), e3) == [m];
    assert Run(Visible(m), e2) == Hidden && Dismissals(Visible(m), e2) == [m];
    assert Run(SlidingIn(m), e1) == Hidden && Dismissals(SlidingIn(m), e1) == [m];
  }

  /** The two things that can be copied. */
  datatype Copied = Email | Discord

  function CopiedMessage(c: Copied): string {
    match c
    case Email => "Email copied to clipboard"
    case Discord => "Discord tag copied to clipboard"
  }

  /**
   * A copy press: a successful clipboard write shows the matching message,
   * a failed one leaves the toast exactly as it was.
   */
  function CopyPressed(t: Toast, c: Copied, writeSucceeded: bool): (r: Toast)
    ensures !writeSucceeded ==> r == t
    ensures writeSucceeded ==> Displayed(r) == CopiedMessage(c) && Pending(r) == {SlideInEnd}
  {
    if writeSucceeded then Step(t, Show(CopiedMessage(c))) else t
  }
}
