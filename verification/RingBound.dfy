/** How full the ring gets: arrivals against timer ticks. */
module RingBound {
  import opened Names
  import opened Files
  import opened Pipeline
  import opened Frames
  import opened Order
  import opened Guarantees
  import OldestFirst

  // ---------------------------------------------------------------- counting

  /** Files in the ring, less the one a tick under way is about to take. */
  function Load(s: System): int {
    |s.w.ring| - if s.mover.Asleep? then 0 else 1
  }

  /** The timer starts the mover. */
  predicate IsTick(s: System, e: Event) {
    e.MoverDo? && s.mover.Asleep?
  }

  /** +1 for a new capture file, -1 for a tick. */
  function Drift(s: System, e: Event): int {
    if e.NewCapture? then 1 else if IsTick(s, e) then -1 else 0
  }

  /** Arrivals less ticks over a run. */
  function Excess(cfg: Config, s: System, es: seq<Event>): int {
    if es == [] then 0
    else
      var k := |es| - 1;
      Excess(cfg, s, es[..k]) + Drift(Run(cfg, s, es[..k]), es[k])
  }

  function Max(a: int, b: int): int {
    if a >= b then a else b
  }

  /** The worst excess of arrivals over ticks on any stretch that ends now. */
  function Worst(cfg: Config, s: System, es: seq<Event>): int {
    if es == [] then 0
    else
      var k := |es| - 1;
      Max(0, Worst(cfg, s, es[..k]) + Drift(Run(cfg, s, es[..k]), es[k]))
  }

  ghost predicate IsWorst(cfg: Config, s: System, es: seq<Event>, worst: int) {
    && (forall i :: 0 <= i <= |es| ==> Excess(cfg, s, es) - Excess(cfg, s, es[..i]) <= worst)
    && (exists i :: 0 <= i <= |es| && Excess(cfg, s, es) - Excess(cfg, s, es[..i]) == worst)
  }

  /** `Worst` is the largest excess over all suffixes of the run. */
  lemma {:induction false} WorstIsLargest(cfg: Config, s: System, es: seq<Event>)
    ensures IsWorst(cfg, s, es, Worst(cfg, s, es))
  {
    if es != [] {
      var k := |es| - 1;
      var init, d := es[..k], Drift(Run(cfg, s, es[..k]), es[k]);
      WorstIsLargest(cfg, s, init);
      hide Drift, Run;
      assert Excess(cfg, s, es) == Excess(cfg, s, init) + d;
      forall i | 0 <= i <= |es| ensures Excess(cfg, s, es) - Excess(cfg, s, es[..i]) <= Worst(cfg, s, es) {
        if i <= k {
          assert es[..i] == init[..i];
        } else {
          assert es[..i] == es;
        }
      }
      var j :| 0 <= j <= k && Excess(cfg, s, init) - Excess(cfg, s, init[..j]) == Worst(cfg, s, init);
      assert es[..j] == init[..j] && es[..|es|] == es;
      assert Excess(cfg, s, es) - Excess(cfg, s, es[..j]) == Worst(cfg, s, init) + d;
      assert Excess(cfg, s, es) - Excess(cfg, s, es[..|es|]) == 0;
    } else {
      assert es[..0] == es;
    }
  }

  // ---------------------------------------------------------------- the floor, in every run

  /** A tick under way found the threshold met, and nothing has been taken since. */
  ghost predicate AboveThreshold(cfg: Config, s: System) {
    !s.mover.Asleep? ==> |s.w.ring| >= cfg.thresh
  }

  lemma CaptureKeys(cfg: Config, s: System, e: Event)
    requires Admissible(cfg, s, e) && RingKnown(s.w.captured, s.w.ring, s.w.clock) && !e.MoverDo? && !e.DaemonDo?
    ensures var ring, ring' := s.w.ring, Step(cfg, s, e).w.ring;
            if e.NewCapture? then e.name !in ring && ring'.Keys == ring.Keys + {e.name} else ring'.Keys == ring.Keys
  {
    if e.NewCapture? {
      RotateKeys(cfg, s.w, e.name);
    } else {
      hide RingKnown, Rotate;
    }
  }

  lemma RotateKeys(cfg: Config, w: World, n: Name)
    requires FreshCapture(cfg, w, n) && RingKnown(w.captured, w.ring, w.clock)
    ensures n !in w.ring && Rotate(w, n).ring.Keys == w.ring.Keys + {n}
  {
  }

  lemma CaptureSize(cfg: Config, s: System, e: Event)
    requires OrderInv(cfg, s) && Admissible(cfg, s, e) && !e.MoverDo? && !e.DaemonDo?
    ensures |Step(cfg, s, e).w.ring| == |s.w.ring| + if e.NewCapture? then 1 else 0
  {
    hide NewestPart, StrictPart, OthersQuiet, Distinct, MoverOk, RingKnown, Step, Admissible;
    CaptureKeys(cfg, s, e);
    var ring, ring' := s.w.ring, Step(cfg, s, e).w.ring;
    assert |ring'| == |ring'.Keys| && |ring| == |ring.Keys|;
  }

  lemma RemovedSize(ring: Directory, n: Name)
    requires n in ring
    ensures |ring - {n}| == |ring| - 1
  {
    var ring' := ring - {n};
    assert ring'.Keys == ring.Keys - {n};
    assert |ring'| == |ring'.Keys| && |ring| == |ring.Keys|;
  }

  lemma StepAboveThreshold(cfg: Config, s: System, e: Event)
    requires OrderInv(cfg, s) && Admissible(cfg, s, e) && AboveThreshold(cfg, s)
    ensures AboveThreshold(cfg, Step(cfg, s, e))
    ensures |Step(cfg, s, e).w.ring| < |s.w.ring| ==> |Step(cfg, s, e).w.ring| >= cfg.thresh - 1
  {
    hide OrderInv;
    if e.MoverDo? {
      MoverTakesOnlyTarget(cfg, s.w, s.mover, e.m);
      if !s.mover.Asleep? && !s.mover.Counted? && s.mover.target in s.w.ring {
        RemovedSize(s.w.ring, s.mover.target);
      }
    } else if e.DaemonDo? {
      DaemonKeepsHistory(cfg, s.w, s.daemon, e.d);
    } else {
      CaptureSize(cfg, s, e);
    }
  }

  /** In every run, whatever fails: the mover takes a file only from a ring at or above the threshold, so it
      never leaves fewer than threshold - 1 files. */
  lemma {:induction false} FloorHolds(cfg: Config, s: System, es: seq<Event>, e: Event)
    requires Cautious(cfg) && OrderInv(cfg, s) && AboveThreshold(cfg, s)
    requires AdmissibleRun(cfg, s, es) && Admissible(cfg, Run(cfg, s, es), e)
    ensures AboveThreshold(cfg, Run(cfg, s, es))
    ensures var before, after := |Run(cfg, s, es).w.ring|, |Run(cfg, s, es + [e]).w.ring|;
            after < before ==> after >= cfg.thresh - 1
  {
    RunAboveThreshold(cfg, s, es);
    RunKeepsOrder(cfg, s, es);
    RunSnoc(cfg, s, es, e);
    hide *;
    StepAboveThreshold(cfg, Run(cfg, s, es), e);
  }

  lemma {:induction false} RunAboveThreshold(cfg: Config, s: System, es: seq<Event>)
    requires Cautious(cfg) && OrderInv(cfg, s) && AboveThreshold(cfg, s) && AdmissibleRun(cfg, s, es)
    ensures AboveThreshold(cfg, Run(cfg, s, es))
  {
    if es != [] {
      SplitRun(cfg, s, es);
      hide *;
      var k := |es| - 1;
      RunAboveThreshold(cfg, s, es[..k]);
      RunKeepsOrder(cfg, s, es[..k]);
      StepAboveThreshold(cfg, Run(cfg, s, es[..k]), es[k]);
    }
  }

  // ---------------------------------------------------------------- the ceiling, when moves succeed

  /** Every call of the mover succeeds and it is not killed. */
  ghost predicate Working(cfg: Config, s: System, e: Event) {
    && !e.MoverKilled?
    && (e.MoverDo? ==>
          match s.mover
          case Counted => e.m.Listed?
          case Picked(_) => e.m.Seen?
          case Routed(_, to, date) =>
            && (to.Some? ==> HasDir(s.w, Resolve(s.w, to.value), date))
            && (e.m.Wrote? || (e.m.Done? && Renames(cfg, s.w, to)))
          case _ => e.m.Done?)
  }

  /** The conditions of the bound: rotations at least QUIET_SECS apart, and a mover that works. */
  ghost predicate SmoothRun(cfg: Config, s: System, es: seq<Event>) {
    es != [] ==>
      var k := |es| - 1;
      && SmoothRun(cfg, s, es[..k])
      && SpacedEvent(Run(cfg, s, es[..k]), es[k]) && Working(cfg, Run(cfg, s, es[..k]), es[k])
  }

  lemma {:induction false} SmoothIsSpaced(cfg: Config, s: System, es: seq<Event>)
    requires SmoothRun(cfg, s, es)
    ensures SpacedRun(cfg, s, es)
  {
    if es != [] {
      SmoothIsSpaced(cfg, s, es[..|es| - 1]);
    }
  }

  /** What a tick does to the load. */
  function Tick(thresh: nat, load: int): int {
    if load >= thresh then load - 1 else load
  }

  function NextLoad(cfg: Config, s: System, e: Event): int {
    if e.NewCapture? then Load(s) + 1 else if IsTick(s, e) then Tick(cfg.thresh, Load(s)) else Load(s)
  }

  lemma RoutedLoad(cfg: Config, s: System, n: Name, to: Option<Mount>, date: Date, o: Io)
    requires n in s.w.ring && (to.Some? ==> HasDir(s.w, Resolve(s.w, to.value), date))
    requires o.Wrote? || (o.Done? && Renames(cfg, s.w, to))
    ensures var (w', m') := MoverMove(cfg, s.w, n, to, date, o);
            |w'.ring| - (if m'.Asleep? then 0 else 1) == |s.w.ring| - 1
  {
    RemovedSize(s.w.ring, n);
  }

  lemma CountedPicks(cfg: Config, s: System, o: Io)
    requires cfg.thresh >= 3 && OrderInv(cfg, s) && Spaced(s.w) && s.mover.Counted? && o.Listed?
    requires IsListing(o.names, s.w.ring)
    ensures OldestFirst.Pick(s.w.ring, o.names, s.w.clock).Some?
  {
    hide Ordered, Spaced, StrictPart;
    var x := ThirdFileIsClosed(s.w);
    OldestFirst.PickIsOldest(s.w.ring, o.names, s.w.clock);
    hide OldestFirst.Pick;
  }

  lemma CopiedLoad(cfg: Config, s: System, o: Io)
    requires s.mover.Copied? && s.mover.target in s.w.ring && o.Done?
    ensures Load(Step(cfg, s, MoverDo(o))) == Load(s)
  {
    RemovedSize(s.w.ring, s.mover.target);
  }

  lemma MoverLoad(cfg: Config, s: System, o: Io)
    requires cfg.thresh >= 3 && OrderInv(cfg, s) && Spaced(s.w)
    requires Admissible(cfg, s, MoverDo(o)) && Working(cfg, s, MoverDo(o))
    ensures Load(Step(cfg, s, MoverDo(o))) == NextLoad(cfg, s, MoverDo(o))
  {
    hide StrictPart;
    match s.mover
    case Asleep => hide Ordered, Spaced;
    case Counted =>
      CountedPicks(cfg, s, o);
      hide Ordered, Spaced, OldestFirst.Pick, IsListing;
    case Picked(n) => hide Ordered, Spaced;
    case Making(n, mount, date) => hide Ordered, Spaced;
    case Routed(n, to, date) =>
      hide Ordered, Spaced, MoverMove;
      RoutedLoad(cfg, s, n, to, date, o);
    case Copied(n, _, _) =>
      hide Ordered, Spaced, MoverStep, MoverMove, Load;
      CopiedLoad(cfg, s, o);
  }

  /** Under the conditions of the bound the load is a queue: a capture adds one, a tick takes one if the
      threshold is met, and nothing else counts. */
  lemma StepLoad(cfg: Config, s: System, e: Event)
    requires cfg.thresh >= 3 && OrderInv(cfg, s) && Spaced(s.w) && Admissible(cfg, s, e) && Working(cfg, s, e)
    ensures Load(Step(cfg, s, e)) == NextLoad(cfg, s, e)
  {
    hide OrderInv, Spaced, Admissible;
    if e.MoverDo? {
      MoverLoad(cfg, s, e.m);
    } else if e.DaemonDo? {
      DaemonKeepsHistory(cfg, s.w, s.daemon, e.d);
    } else {
      CaptureSize(cfg, s, e);
    }
  }

  /** The bound on a load that started at `start`, in numbers. */
  ghost predicate Within(thresh: nat, start: int, load: int, excess: int, worst: int) {
    var bound := Max(start + excess, thresh - 1 + worst);
    start + excess <= load <= bound && (start >= thresh - 1 ==> load == bound)
  }

  lemma WithinStep(thresh: nat, start: int, load: int, excess: int, worst: int)
    requires Within(thresh, start, load, excess, worst) && worst >= 0
    ensures Within(thresh, start, load, excess, Max(0, worst))
    ensures Within(thresh, start, load + 1, excess + 1, Max(0, worst + 1))
    ensures Within(thresh, start, Tick(thresh, load), excess - 1, Max(0, worst - 1))
  {
  }

  /** Excess and worst excess, one event later. */
  lemma ExcessStep(cfg: Config, s: System, es: seq<Event>)
    requires es != []
    ensures var k := |es| - 1;
            var d := Drift(Run(cfg, s, es[..k]), es[k]);
            && Excess(cfg, s, es) == Excess(cfg, s, es[..k]) + d
            && Worst(cfg, s, es) == Max(0, Worst(cfg, s, es[..k]) + d)
            && Worst(cfg, s, es[..k]) >= 0
  {
  }

  /** The ring is bounded. Whatever the schedule, the load never exceeds the larger of the initial load plus the
      excess of arrivals over ticks, and threshold - 1 plus the worst excess on any stretch ending now; it is
      never below the former; and from threshold - 1 files up the bound is exact. */
  lemma {:induction false} RingIsBounded(cfg: Config, s: System, es: seq<Event>)
    requires cfg.thresh >= 3 && OrderInv(cfg, s) && Spaced(s.w)
    requires AdmissibleRun(cfg, s, es) && SmoothRun(cfg, s, es)
    ensures Within(cfg.thresh, Load(s), Load(Run(cfg, s, es)), Excess(cfg, s, es), Worst(cfg, s, es))
  {
    if es != [] {
      var k := |es| - 1;
      var s' := Run(cfg, s, es[..k]);
      SplitRun(cfg, s, es);
      SmoothIsSpaced(cfg, s, es[..k]);
      ExcessStep(cfg, s, es);
      assert SmoothRun(cfg, s, es[..k]) && Working(cfg, s', es[k]) && Cautious(cfg);
      hide *;
      RingIsBounded(cfg, s, es[..k]);
      RunKeepsOrder(cfg, s, es[..k]);
      RunSpaced(cfg, s, es[..k]);
      StepLoad(cfg, s', es[k]);
      LoadWithin(cfg, s', es[k], Load(s), Excess(cfg, s, es[..k]), Worst(cfg, s, es[..k]));
    }
  }

  lemma LoadWithin(cfg: Config, s: System, e: Event, start: int, excess: int, worst: int)
    requires Within(cfg.thresh, start, Load(s), excess, worst) && worst >= 0
    ensures Within(cfg.thresh, start, NextLoad(cfg, s, e), excess + Drift(s, e), Max(0, worst + Drift(s, e)))
  {
    WithinStep(cfg.thresh, start, Load(s), excess, worst);
    hide Within;
  }

  // ---------------------------------------------------------------- at most one rotation per tick

  /** Captures opened since the last tick. */
  function SinceTick(cfg: Config, s: System, es: seq<Event>): nat {
    if es == [] then 0
    else
      var k := |es| - 1;
      if es[k].NewCapture? then SinceTick(cfg, s, es[..k]) + 1
      else if IsTick(Run(cfg, s, es[..k]), es[k]) then 0
      else SinceTick(cfg, s, es[..k])
  }

  /** No two captures are opened without a tick in between. */
  ghost predicate OnePerTick(cfg: Config, s: System, es: seq<Event>) {
    es != [] ==> OnePerTick(cfg, s, es[..|es| - 1]) && SinceTick(cfg, s, es) <= 1
  }

  lemma {:induction false} OnePerTickWorst(cfg: Config, s: System, es: seq<Event>)
    requires OnePerTick(cfg, s, es)
    ensures Worst(cfg, s, es) <= SinceTick(cfg, s, es)
    ensures Excess(cfg, s, es) <= Worst(cfg, s, es)
  {
    if es != [] {
      var k := |es| - 1;
      assert OnePerTick(cfg, s, es[..k]);
      OnePerTickWorst(cfg, s, es[..k]);
      ExcessStep(cfg, s, es);
      hide Run, Worst, Excess;
    }
  }

  /** With a tick between any two rotations, a ring that starts at threshold - 1 files or fewer never holds more
      than threshold, not counting the file a tick under way is about to take. */
  lemma OneRotationPerTick(cfg: Config, s: System, es: seq<Event>)
    requires cfg.thresh >= 3 && OrderInv(cfg, s) && Spaced(s.w) && Load(s) <= cfg.thresh - 1
    requires AdmissibleRun(cfg, s, es) && SmoothRun(cfg, s, es) && OnePerTick(cfg, s, es)
    ensures Load(Run(cfg, s, es)) <= cfg.thresh
    ensures Run(cfg, s, es).mover.Asleep? ==> |Run(cfg, s, es).w.ring| <= cfg.thresh
  {
    assert SinceTick(cfg, s, es) <= 1;
    hide Run, SinceTick, OnePerTick, Excess, Worst, OrderInv, Spaced, AdmissibleRun, SmoothRun;
    RingIsBounded(cfg, s, es);
    OnePerTickWorst(cfg, s, es);
  }

  // ---------------------------------------------------------------- seconds

  /** When the timer last fired; it is started with the run. */
  function LastTick(cfg: Config, s: System, es: seq<Event>): int {
    if es == [] then s.w.clock
    else
      var k := |es| - 1;
      var s' := Run(cfg, s, es[..k]);
      if IsTick(s', es[k]) then s'.w.clock else LastTick(cfg, s, es[..k])
  }

  /** Rotations are at least `rotate` apart, and whenever one happens a tick was at most `period` ago. */
  ghost predicate TimedRun(cfg: Config, s: System, es: seq<Event>, rotate: int, period: int) {
    es != [] ==>
      var k := |es| - 1;
      var s' := Run(cfg, s, es[..k]);
      && TimedRun(cfg, s, es[..k], rotate, period)
      && (es[k].NewCapture? ==>
            s'.w.clock >= s'.w.rotated + rotate && s'.w.clock <= LastTick(cfg, s, es[..k]) + period)
  }

  lemma ClockStep(cfg: Config, s: System, e: Event)
    ensures var s' := Step(cfg, s, e);
            && s'.w.clock >= s.w.clock
            && s'.w.rotated == if e.NewCapture? then s.w.clock else s.w.rotated
  {
    if e.MoverDo? {
      MoverKeepsHistory(cfg, s.w, s.mover, e.m);
      hide MoverStep;
    } else if e.DaemonDo? {
      DaemonKeepsHistory(cfg, s.w, s.daemon, e.d);
      hide DaemonStep;
    }
  }

  /** A capture opened since the last tick was opened after it. */
  ghost predicate TickBeforeCapture(cfg: Config, s: System, es: seq<Event>) {
    var t := LastTick(cfg, s, es);
    t <= Run(cfg, s, es).w.clock && (SinceTick(cfg, s, es) > 0 ==> t <= Run(cfg, s, es).w.rotated)
  }

  lemma {:induction false} TimedIsOnePerTick(cfg: Config, s: System, es: seq<Event>, rotate: int, period: int)
    requires TimedRun(cfg, s, es, rotate, period) && period < rotate
    ensures OnePerTick(cfg, s, es) && TickBeforeCapture(cfg, s, es)
  {
    if es != [] {
      var k := |es| - 1;
      var s' := Run(cfg, s, es[..k]);
      assert TimedRun(cfg, s, es[..k], rotate, period);
      TimedIsOnePerTick(cfg, s, es[..k], rotate, period);
      assert SinceTick(cfg, s, es[..k]) <= 1 by {
        assert k > 0 ==> OnePerTick(cfg, s, es[..k]);
      }
      ClockStep(cfg, s', es[k]);
      assert Run(cfg, s, es) == Step(cfg, s', es[k]);
      hide Run, Step;
    }
  }

  /** When every rotation has a tick less than a rotation interval before it, the ring stays at or below the
      threshold. */
  lemma PunctualTimerBoundsRing(cfg: Config, s: System, es: seq<Event>, rotate: int, period: int)
    requires cfg.thresh >= 3 && OrderInv(cfg, s) && Spaced(s.w) && Load(s) <= cfg.thresh - 1
    requires AdmissibleRun(cfg, s, es) && SmoothRun(cfg, s, es)
    requires TimedRun(cfg, s, es, rotate, period) && period < rotate
    ensures Load(Run(cfg, s, es)) <= cfg.thresh
  {
    hide *;
    TimedIsOnePerTick(cfg, s, es, rotate, period);
    OneRotationPerTick(cfg, s, es);
  }

  // ---------------------------------------------------------------- a timer

  /** Rotations are at least `rotate` apart, and the timer never lets more than `period` pass between ticks. */
  ghost predicate TimerRun(cfg: Config, s: System, es: seq<Event>, rotate: int, period: int) {
    es != [] ==>
      var k := |es| - 1;
      var s' := Run(cfg, s, es[..k]);
      && TimerRun(cfg, s, es[..k], rotate, period)
      && (es[k].NewCapture? ==> s'.w.clock >= s'.w.rotated + rotate)
      && Run(cfg, s, es).w.clock <= LastTick(cfg, s, es) + period
  }

  /** How far arrivals can run ahead of a timer no slower than the rotation: one capture, or two if the newer of
      them was opened a whole rotation interval after the last tick. */
  ghost predicate Ahead(worst: int, tick: int, rotated: int, clock: int, rotate: int) {
    && worst <= 2 && tick <= clock
    && (worst >= 1 ==> tick <= rotated <= clock)
    && (worst >= 2 ==> tick + rotate <= rotated)
  }

  lemma AheadStep(worst: int, tick: int, rotated: int, clock: int, rotate: int, period: int)
    requires Ahead(worst, tick, rotated, clock, rotate) && worst >= 0
    requires clock <= tick + period && period <= rotate && rotate > 0
    ensures clock >= rotated + rotate ==> Ahead(Max(0, worst + 1), tick, clock, clock, rotate)
    ensures Ahead(Max(0, worst - 1), clock, rotated, clock, rotate)
    ensures forall later :: later >= clock ==> Ahead(Max(0, worst), tick, rotated, later, rotate)
  {
  }

  lemma {:induction false} TimerKeepsUp(cfg: Config, s: System, es: seq<Event>, rotate: int, period: nat)
    requires TimerRun(cfg, s, es, rotate, period) && period <= rotate && rotate > 0
    ensures var s' := Run(cfg, s, es);
            && Ahead(Worst(cfg, s, es), LastTick(cfg, s, es), s'.w.rotated, s'.w.clock, rotate)
            && s'.w.clock <= LastTick(cfg, s, es) + period
  {
    if es != [] {
      var k := |es| - 1;
      var s' := Run(cfg, s, es[..k]);
      assert TimerRun(cfg, s, es[..k], rotate, period);
      TimerKeepsUp(cfg, s, es[..k], rotate, period);
      ClockStep(cfg, s', es[k]);
      ExcessStep(cfg, s, es);
      AheadStep(Worst(cfg, s, es[..k]), LastTick(cfg, s, es[..k]), s'.w.rotated, s'.w.clock, rotate, period);
      assert Run(cfg, s, es) == Step(cfg, s', es[k]);
      if es[k].MoverDo? || es[k].NewCapture? {
        TickKeepsClock(cfg, s', es[k]);
      }
      hide Run, Step, Ahead, Worst;
    }
  }

  lemma TickKeepsClock(cfg: Config, s: System, e: Event)
    requires e.MoverDo? || e.NewCapture?
    ensures Step(cfg, s, e).w.clock == s.w.clock
  {
    if e.MoverDo? {
      MoverKeepsHistory(cfg, s.w, s.mover, e.m);
      hide MoverStep;
    }
  }

  /** A timer faster than the rotation keeps the ring at or below the threshold; one of the same period lets it
      exceed the threshold by one. */
  lemma TimerBoundsRing(cfg: Config, s: System, es: seq<Event>, rotate: int, period: nat)
    requires cfg.thresh >= 3 && OrderInv(cfg, s) && Spaced(s.w) && Load(s) <= cfg.thresh - 1
    requires AdmissibleRun(cfg, s, es) && SmoothRun(cfg, s, es)
    requires TimerRun(cfg, s, es, rotate, period) && period <= rotate && rotate > 0
    ensures Load(Run(cfg, s, es)) <= if period < rotate then cfg.thresh else cfg.thresh + 1
  {
    hide Run, AdmissibleRun, SmoothRun, TimerRun, OrderInv, Spaced, Worst, LastTick, Load;
    RingIsBounded(cfg, s, es);
    TimerKeepsUp(cfg, s, es, rotate, period);
    WorstIsLargest(cfg, s, es);
    assert Excess(cfg, s, es) - Excess(cfg, s, es[..0]) <= Worst(cfg, s, es);
  }
}
