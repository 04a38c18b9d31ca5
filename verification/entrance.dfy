/**
 * One-shot entrance animations. Each of five page blocks carries a flag that
 * turns true on the first scroll event whose offset passes the block's
 * threshold; the block's entrance animation starts exactly when its flag turns.
 * Animation starts are recorded as a multiset of blocks, one element per start.
 */
module Entrance {

  /** The blocks with an entrance animation, in page order. */
  datatype Block = About | Interests | Projects | Contact | Footer

  function Order(b: Block): nat {
    match b
    case About => 0
    case Interests => 1
    case Projects => 2
    case Contact => 3
    case Footer => 4
  }

  /** The "already animated" flags, one per block. */
  datatype Flags = Flags(about: bool, interests: bool, projects: bool, contact: bool, footer: bool) {

    function Get(b: Block): bool {
      match b
      case About => about
      case Interests => interests
      case Projects => projects
      case Contact => contact
      case Footer => footer
    }

    /** The flags with `b` raised and every other flag as it was. */
    function Set(b: Block): (f: Flags)
      ensures forall c :: f.Get(c) == (c == b || Get(c))
    {
      match b
      case About => this.(about := true)
      case Interests => this.(interests := true)
      case Projects => this.(projects := true)
      case Contact => this.(contact := true)
      case Footer => this.(footer := true)
    }
  }

  datatype State = State(flags: Flags, starts: multiset<Block>)

  /** On mount: nothing animated, nothing started. */
  const Init := State(Flags(false, false, false, false, false), multiset{})

  /** Nominal top of each block in viewport heights. */
  function Nominal(b: Block): real {
    match b
    case About => 0.95
    case Interests => 1.95
    case Projects => 2.95
    case Contact => 3.95
    case Footer => 4.5
  }

  /** The offset a scroll must exceed: the nominal top less a look-ahead of 0.3 viewport heights. */
  function Threshold(b: Block, h: real): real {
    h * Nominal(b) - h * 0.3
  }

  /** One block's check within a scroll event. */
  function Trigger(s: State, b: Block, y: real, h: real): (r: State)
    ensures r.flags.Get(b) == (s.flags.Get(b) || y > Threshold(b, h))
    ensures r.starts[b] == s.starts[b] + (if y > Threshold(b, h) && !s.flags.Get(b) then 1 else 0)
    ensures forall c :: c != b ==> r.flags.Get(c) == s.flags.Get(c) && r.starts[c] == s.starts[c]
  {
    if y > Threshold(b, h) && !s.flags.Get(b) then State(s.flags.Set(b), s.starts + multiset{b}) else s
  }

  /** The blocks in the order a scroll event checks them. */
  const CheckOrder: seq<Block> := [About, Interests, Projects, Contact, Footer]

  /** Every block is checked. */
  lemma CheckOrderCovers()
    ensures forall b :: b in CheckOrder
  {
    forall b
      ensures b in CheckOrder
    {
      match b
      case About =>
      case Interests =>
      case Projects =>
      case Contact =>
      case Footer =>
    }
  }

  /**
   * The checks for the blocks `bs`, one after another. Each check reads the
   * flag as the earlier ones left it, but only its own block's flag and
   * start are touched, so the outcome per block depends only on whether the
   * block is among `bs`.
   */
  function Sweep(s: State, bs: seq<Block>, y: real, h: real): (r: State)
    ensures forall b :: r.flags.Get(b) == (s.flags.Get(b) || (b in bs && y > Threshold(b, h)))
    ensures forall b :: r.starts[b] == s.starts[b] + (if b in bs && y > Threshold(b, h) && !s.flags.Get(b) then 1 else 0)
    decreases |bs|
  {
    if |bs| == 0 then s
    else
      var r := Sweep(Trigger(s, bs[0], y, h), bs[1..], y, h);
      assert forall b :: b in bs <==> b == bs[0] || b in bs[1..];
      r
  }

  /**
   * A scroll event at offset `y`: the five independent checks. Each flag is
   * raised exactly when it was raised before or `y` passes its threshold, and
   * one start is added exactly for a flag that turned.
   */
  function OnScroll(s: State, y: real, h: real): (r: State)
    ensures forall b :: r.flags.Get(b) == (s.flags.Get(b) || y > Threshold(b, h))
    ensures forall b :: r.starts[b] == s.starts[b] + (if y > Threshold(b, h) && !s.flags.Get(b) then 1 else 0)
  {
    CheckOrderCovers();
    Sweep(s, CheckOrder, y, h)
  }

  /** Each block has started once if its flag is raised and never otherwise. */
  ghost predicate Consistent(s: State) {
    forall b :: s.starts[b] == (if s.flags.Get(b) then 1 else 0)
  }

  /** A raised flag stays raised, and a scroll event keeps flags and starts in step. */
  lemma OnScrollMonotone(s: State, y: real, h: real, b: Block)
    requires Consistent(s)
    ensures s.flags.Get(b) ==> OnScroll(s, y, h).flags.Get(b)
    ensures Consistent(OnScroll(s, y, h))
  {
  }

  /** The state after the scroll offsets `ys`, in order, starting from mount. */
  function Run(ys: seq<real>, h: real): State
    decreases |ys|
  {
    if |ys| == 0 then Init else OnScroll(Run(ys[..|ys| - 1], h), ys[|ys| - 1], h)
  }

  /** Some offset in `ys` has passed the threshold of `b`. */
  ghost predicate Seen(b: Block, ys: seq<real>, h: real) {
    exists i :: 0 <= i < |ys| && ys[i] > Threshold(b, h)
  }

  lemma SeenSnoc(b: Block, ys: seq<real>, h: real)
    requires |ys| > 0
    ensures Seen(b, ys, h) <==> Seen(b, ys[..|ys| - 1], h) || ys[|ys| - 1] > Threshold(b, h)
  {
    var p := ys[..|ys| - 1];
    if Seen(b, ys, h) && ys[|ys| - 1] <= Threshold(b, h) {
      var i :| 0 <= i < |ys| && ys[i] > Threshold(b, h);
      assert i < |ys| - 1 && p[i] == ys[i];
    }
    if Seen(b, p, h) {
      var i :| 0 <= i < |p| && p[i] > Threshold(b, h);
      assert ys[i] == p[i];
    }
  }

  /**
   * Over any sequence of scroll events, a block's flag is raised exactly when
   * some offset passed its threshold, and its animation started once if so
   * and never otherwise.
   */
  lemma {:induction false} RunSpec(ys: seq<real>, h: real)
    ensures forall b :: Run(ys, h).flags.Get(b) <==> Seen(b, ys, h)
    ensures Consistent(Run(ys, h))
    decreases |ys|
  {
    if |ys| > 0 {
      var p := ys[..|ys| - 1];
      RunSpec(p, h);
      forall b
        ensures Run(ys, h).flags.Get(b) <==> Seen(b, ys, h)
        ensures Run(ys, h).starts[b] == (if Run(ys, h).flags.Get(b) then 1 else 0)
      {
        SeenSnoc(b, ys, h);
      }
    }
  }

  /** No entrance animation ever starts twice. */
  lemma StartsAtMostOnce(ys: seq<real>, h: real, b: Block)
    ensures Run(ys, h).starts[b] <= 1
  {
    RunSpec(ys, h);
  }

  /** With a non-negative viewport height, thresholds rise down the page. */
  lemma ThresholdsRise(b: Block, c: Block, h: real)
    requires h >= 0.0
    requires Order(b) <= Order(c)
    ensures Threshold(b, h) <= Threshold(c, h)
  {
  }

  /** A block further down has animated only if every block above it has. */
  lemma FlagsDownwardClosed(ys: seq<real>, h: real, b: Block, c: Block)
    requires h >= 0.0
    requires Order(b) <= Order(c)
    ensures Run(ys, h).flags.Get(c) ==> Run(ys, h).flags.Get(b)
  {
    RunSpec(ys, h);
    if Run(ys, h).flags.Get(c) {
      var i :| 0 <= i < |ys| && ys[i] > Threshold(c, h);
      ThresholdsRise(b, c, h);
      assert ys[i] > Threshold(b, h);
    }
  }

  /** An offset past the footer's threshold is past every block's. */
  lemma PastAllThresholds(y: real, h: real)
    requires h >= 0.0
    requires y > Threshold(Footer, h)
    ensures forall b :: y > Threshold(b, h)
  {
    forall b
      ensures y > Threshold(b, h)
    {
      ThresholdsRise(b, Footer, h);
    }
  }

  /** A multiset holding every block exactly once is the five blocks. */
  lemma EachOnceIsAll(m: multiset<Block>)
    requires forall b :: m[b] == 1
    ensures m == multiset{About, Interests, Projects, Contact, Footer}
  {
    var all := multiset{About, Interests, Projects, Contact, Footer};
    forall b
      ensures m[b] == all[b]
    {
      match b
      case About =>
      case Interests =>
      case Projects =>
      case Contact =>
      case Footer =>
    }
  }

  /** One scroll event past the footer's threshold starts all five entrance animations at once. */
  lemma OneEventStartsAll(y: real, h: real)
    requires h >= 0.0
    requires y > Threshold(Footer, h)
    ensures OnScroll(Init, y, h).starts == multiset{About, Interests, Projects, Contact, Footer}
  {
    PastAllThresholds(y, h);
    var r := OnScroll(Init, y, h);
    forall b
      ensures r.starts[b] == 1
    {
      assert !Init.flags.Get(b) && Init.starts[b] == 0 && y > Threshold(b, h);
    }
    EachOnceIsAll(r.starts);
  }
}
