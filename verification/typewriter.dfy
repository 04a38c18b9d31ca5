/**
 * The hero title typewriter: on mount the title is typed one character per
 * tick; the tick after the last character starts the cursor blink loop and
 * schedules nothing further.
 */
module Typewriter {
  import opened JsMath

  const Title: string := "dinonuwg"

  /**
   * `i` characters typed so far, `typed` the displayed text, `pending`
   * whether another tick is scheduled, `blinkStarts` how often the cursor loop
   * was started.
   */
  datatype State = State(i: nat, typed: string, pending: bool, blinkStarts: nat)

  /** On mount the first tick runs at once. */
  const Init := State(0, "", true, 0)

  /** The displayed text is the first `i` characters of the title. */
  predicate Coherent(s: State) {
    s.i <= |Title| && s.typed == Title[..s.i]
  }

  /**
   * One run of the tick callback: a coherent state stays coherent, the text
   * grows by exactly one title character while incomplete, and a complete
   * title instead stops the ticks and starts the cursor loop once.
   */
  function Tick(s: State): (r: State)
    ensures Coherent(s) ==> Coherent(r)
    ensures !s.pending ==> r == s
    ensures s.pending && s.i < |Title| ==> r.pending && r.i == s.i + 1 && r.blinkStarts == s.blinkStarts
    ensures s.pending && Coherent(s) && s.i < |Title| ==> r.typed == s.typed + [Title[s.i]]
    ensures s.pending && s.i >= |Title| ==> !r.pending && r.typed == s.typed && r.blinkStarts == s.blinkStarts + 1
  {
    if !s.pending then s
    else if s.i < |Title| then State(s.i + 1, Title[..s.i + 1], true, s.blinkStarts)
    else State(s.i, s.typed, false, s.blinkStarts + 1)
  }

  function Ticks(k: nat): State {
    if k == 0 then Init else Tick(Ticks(k - 1))
  }

  /**
   * After `k` ticks the displayed text is the first `min(k, 8)` characters of
   * the title, ticks keep coming while the title is incomplete, and the cursor
   * loop has started once exactly when `k` exceeds the title's length.
   */
  lemma {:induction false} TicksSpec(k: nat)
    ensures Ticks(k) == State(Min(k, |Title|), Title[..Min(k, |Title|)], k <= |Title|, if k > |Title| then 1 else 0)
  {
    if k > 0 {
      TicksSpec(k - 1);
    }
  }

  /** Each tick grows the displayed text by at most one character, always along the title. */
  lemma TypedGrowsAlongTitle(k: nat)
    ensures Ticks(k).typed <= Title
    ensures Ticks(k).typed <= Ticks(k + 1).typed
    ensures |Ticks(k + 1).typed| <= |Ticks(k).typed| + 1
  {
    TicksSpec(k);
    TicksSpec(k + 1);
  }
}
