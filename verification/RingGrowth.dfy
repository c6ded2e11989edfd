/** When the ring stays bounded under a timer, and runs in which it does not. */
module RingGrowth {
  import opened Names
  import opened Files
  import opened Pipeline
  import opened Frames
  import opened Order
  import opened Safety
  import opened Guarantees
  import opened RingBound
  import OldestFirst

  /** A run of a fresh sensor with a working mover: rotations at least `rotate` apart, ticks at most `period`. */
  ghost predicate OnTime(cfg: Config, s: System, es: seq<Event>, rotate: int, period: int) {
    FreshSensor(s) && AdmissibleRun(cfg, s, es) && SmoothRun(cfg, s, es) && TimerRun(cfg, s, es, rotate, period)
  }

  /** Not counting the file that a tick under way is about to take. */
  ghost predicate NeverAbove(cfg: Config, rotate: int, period: int, bound: int) {
    forall s, es :: OnTime(cfg, s, es, rotate, period) ==> Load(Run(cfg, s, es)) <= bound
  }

  /** All files of the ring. */
  ghost predicate RingNeverAbove(cfg: Config, rotate: int, period: int, bound: int) {
    forall s, es :: OnTime(cfg, s, es, rotate, period) ==> |Run(cfg, s, es).w.ring| <= bound
  }

  ghost predicate Bounded(cfg: Config, rotate: int, period: int) {
    exists bound :: RingNeverAbove(cfg, rotate, period, bound)
  }

  /** The two counts differ by one at most. */
  lemma LoadIsAlmostRing(cfg: Config, rotate: int, period: int, bound: int)
    ensures NeverAbove(cfg, rotate, period, bound) ==> RingNeverAbove(cfg, rotate, period, bound + 1)
    ensures RingNeverAbove(cfg, rotate, period, bound) ==> NeverAbove(cfg, rotate, period, bound)
  {
    hide OnTime, Run;
    if NeverAbove(cfg, rotate, period, bound) {
      forall s, es | OnTime(cfg, s, es, rotate, period) ensures |Run(cfg, s, es).w.ring| <= bound + 1 {
        assert Load(Run(cfg, s, es)) <= bound;
      }
    }
    if RingNeverAbove(cfg, rotate, period, bound) {
      forall s, es | OnTime(cfg, s, es, rotate, period) ensures Load(Run(cfg, s, es)) <= bound {
        assert |Run(cfg, s, es).w.ring| <= bound;
      }
    }
  }

  // ---------------------------------------------------------------- building runs

  /** Some such run leads to `s`, with the last tick at `tick` and `excess` more captures than ticks. */
  ghost predicate Timeline(cfg: Config, rotate: int, period: int, s: System, tick: int, excess: int) {
    exists s0, es ::
      && OnTime(cfg, s0, es, rotate, period) && Run(cfg, s0, es) == s
      && LastTick(cfg, s0, es) == tick && Excess(cfg, s0, es) == excess
  }

  lemma Begin(cfg: Config, rotate: int, period: int)
    ensures Timeline(cfg, rotate, period, START, 0, 0)
  {
    assert AdmissibleRun(cfg, START, []) && Run(cfg, START, []) == START;
    assert OnTime(cfg, START, [], rotate, period) && LastTick(cfg, START, []) == 0 && Excess(cfg, START, []) == 0;
  }

  lemma TimelineIsGood(cfg: Config, rotate: int, period: int, s: System, tick: int, excess: int)
    requires cfg.thresh >= 3 && Timeline(cfg, rotate, period, s, tick, excess)
    ensures OrderInv(cfg, s) && Spaced(s.w) && Load(s) >= excess
  {
    var s0, es :| OnTime(cfg, s0, es, rotate, period) && Run(cfg, s0, es) == s
                  && LastTick(cfg, s0, es) == tick && Excess(cfg, s0, es) == excess;
    assert Load(s0) == 0;
    FreshSensorIsGood(cfg, s0);
    hide Run, AdmissibleRun, SmoothRun, TimerRun, LastTick, Excess, Inv, Spaced, FreshSensor, Worst, OrderInv;
    InvIsOrdered(cfg, s0);
    RingIsBounded(cfg, s0, es);
    RunKeepsOrder(cfg, s0, es);
    SmoothIsSpaced(cfg, s0, es);
    RunSpaced(cfg, s0, es);
  }

  /** What the next event owes the timer: rotations keep their distance, and the clock its distance from the last tick. */
  ghost predicate OnTimeEvent(cfg: Config, s: System, tick: int, e: Event, rotate: int, period: int) {
    && Admissible(cfg, s, e) && SpacedEvent(s, e) && Working(cfg, s, e)
    && (e.NewCapture? ==> s.w.clock >= s.w.rotated + rotate)
    && Step(cfg, s, e).w.clock <= (if IsTick(s, e) then s.w.clock else tick) + period
  }

  lemma OnTimeSnoc(cfg: Config, s0: System, es: seq<Event>, e: Event, rotate: int, period: int)
    requires OnTime(cfg, s0, es, rotate, period)
    requires OnTimeEvent(cfg, Run(cfg, s0, es), LastTick(cfg, s0, es), e, rotate, period)
    ensures OnTime(cfg, s0, es + [e], rotate, period)
    ensures var s := Run(cfg, s0, es);
            && Run(cfg, s0, es + [e]) == Step(cfg, s, e)
            && LastTick(cfg, s0, es + [e]) == (if IsTick(s, e) then s.w.clock else LastTick(cfg, s0, es))
            && Excess(cfg, s0, es + [e]) == Excess(cfg, s0, es) + Drift(s, e)
  {
    RunSnoc(cfg, s0, es, e);
    hide Step, Admissible, FreshSensor;
    assert (es + [e])[..|es|] == es;
    AdmissibleSnoc(cfg, s0, es, e);
    hide AdmissibleRun, Run;
  }

  lemma RunTo(cfg: Config, rotate: int, period: int, s: System, tick: int, excess: int)
    returns (s0: System, es: seq<Event>)
    requires Timeline(cfg, rotate, period, s, tick, excess)
    ensures OnTime(cfg, s0, es, rotate, period) && Run(cfg, s0, es) == s
    ensures LastTick(cfg, s0, es) == tick && Excess(cfg, s0, es) == excess
  {
    s0, es :| OnTime(cfg, s0, es, rotate, period) && Run(cfg, s0, es) == s
              && LastTick(cfg, s0, es) == tick && Excess(cfg, s0, es) == excess;
  }

  lemma ThisIsATimeline(cfg: Config, rotate: int, period: int, s0: System, es: seq<Event>)
    requires OnTime(cfg, s0, es, rotate, period)
    ensures Timeline(cfg, rotate, period, Run(cfg, s0, es), LastTick(cfg, s0, es), Excess(cfg, s0, es))
  {
    hide OnTime, Run, LastTick, Excess;
  }

  lemma Next(cfg: Config, rotate: int, period: int, s: System, tick: int, excess: int, e: Event) returns (s': System)
    requires Timeline(cfg, rotate, period, s, tick, excess) && OnTimeEvent(cfg, s, tick, e, rotate, period)
    ensures s' == Step(cfg, s, e)
    ensures Timeline(cfg, rotate, period, s', if IsTick(s, e) then s.w.clock else tick, excess + Drift(s, e))
  {
    hide *;
    s' := Step(cfg, s, e);
    var s0, es := RunTo(cfg, rotate, period, s, tick, excess);
    OnTimeSnoc(cfg, s0, es, e, rotate, period);
    ThisIsATimeline(cfg, rotate, period, s0, es + [e]);
  }

  /** There is always an unused name. */
  function Longest(names: seq<Name>): (n: nat)
    ensures forall x :: x in names ==> |x| <= n
  {
    if names == [] then 0
    else
      var k := |names| - 1;
      assert names == names[..k] + [names[k]];
      var n := Longest(names[..k]);
      if |names[k]| > n then |names[k]| else n
  }

  function NewName(names: seq<Name>): (n: Name)
    ensures n !in names
  {
    seq(Longest(names) + 1, _ => 'a')
  }

  /** Time passes, and then a new capture file is opened. */
  lemma CaptureAt(cfg: Config, rotate: int, period: int, s: System, tick: int, excess: int, now: int) returns (s': System)
    requires cfg.thresh >= 3 && rotate >= QUIET && Timeline(cfg, rotate, period, s, tick, excess)
    requires s.w.clock <= now <= tick + period && s.w.rotated + rotate <= now && s.w.clock < now
    ensures Timeline(cfg, rotate, period, s', tick, excess + 1) && s'.mover == s.mover
    ensures s'.w.clock == now && s'.w.rotated == now && |s'.w.ring| == |s.w.ring| + 1
  {
    hide Timeline;
    RingSeen(cfg, rotate, period, s, tick, excess);
    s' := Next(cfg, rotate, period, s, tick, excess, Wait(now - s.w.clock));
    s' := OpenNow(cfg, rotate, period, s', tick, excess, s.w.clock);
  }

  /** The timer fires and the mover runs to its end. */
  lemma FullTick(cfg: Config, rotate: int, period: nat, s: System, tick: int, excess: int) returns (s': System)
    requires cfg.thresh >= 3 && Timeline(cfg, rotate, period, s, tick, excess) && s.mover == Asleep
    ensures Timeline(cfg, rotate, period, s', s.w.clock, excess - 1) && s'.mover == Asleep
    ensures s'.w.clock == s.w.clock && s'.w.rotated == s.w.rotated
  {
    hide Timeline;
    var now, out := s.w.clock, excess - 1;
    s' := Next(cfg, rotate, period, s, tick, excess, MoverDo(Done));
    if s'.mover.Counted? {
      s' := Choose(cfg, rotate, period, s', now, out);
      s' := Next(cfg, rotate, period, s', now, out, MoverDo(Seen(None, "")));
      s' := Take(cfg, rotate, period, s', now, out);
    }
  }

  lemma Choose(cfg: Config, rotate: int, period: nat, s: System, tick: int, excess: int) returns (s': System)
    requires cfg.thresh >= 3 && Timeline(cfg, rotate, period, s, tick, excess) && s.mover.Counted? && s.w.clock == tick
    ensures Timeline(cfg, rotate, period, s', tick, excess) && s'.w == s.w && s'.mover.Picked?
  {
    var names := OldestFirst.Listable(s.w.ring);
    TimelineIsGood(cfg, rotate, period, s, tick, excess);
    hide Timeline, OrderInv, Spaced, OldestFirst.Pick, IsListing, Step;
    CountedPicks(cfg, s, Listed(names, ""));
    ChooseStep(cfg, s, names);
    s' := Next(cfg, rotate, period, s, tick, excess, MoverDo(Listed(names, "")));
  }

  lemma ChooseStep(cfg: Config, s: System, names: seq<Name>)
    requires s.mover.Counted? && OldestFirst.Pick(s.w.ring, names, s.w.clock).Some?
    ensures var s' := Step(cfg, s, MoverDo(Listed(names, ""))); s'.w == s.w && s'.mover.Picked?
  {
    hide OldestFirst.Pick;
  }

  lemma Take(cfg: Config, rotate: int, period: nat, s: System, tick: int, excess: int) returns (s': System)
    requires cfg.thresh >= 3 && Timeline(cfg, rotate, period, s, tick, excess) && s.w.clock == tick
    requires s.mover.Routed? && s.mover.to == None
    ensures Timeline(cfg, rotate, period, s', tick, excess) && s'.mover == Asleep
    ensures s'.w.clock == s.w.clock && s'.w.rotated == s.w.rotated
  {
    var n := s.mover.target;
    TargetInRing(cfg, rotate, period, s, tick, excess);
    TakeStep(cfg, s, n);
    hide Timeline, Step;
    if cfg.sharedDevice {
      s' := Next(cfg, rotate, period, s, tick, excess, MoverDo(Done));
    } else {
      s' := Next(cfg, rotate, period, s, tick, excess, MoverDo(Wrote(s.w.ring[n].content)));
      UnlinkStep(cfg, s', n);
      s' := Next(cfg, rotate, period, s', tick, excess, MoverDo(Done));
    }
  }

  lemma TargetInRing(cfg: Config, rotate: int, period: nat, s: System, tick: int, excess: int)
    requires cfg.thresh >= 3 && Timeline(cfg, rotate, period, s, tick, excess) && s.mover.Routed?
    ensures s.mover.target in s.w.ring
  {
    TimelineIsGood(cfg, rotate, period, s, tick, excess);
    hide Timeline, Ordered, StrictPart;
  }

  lemma TakeStep(cfg: Config, s: System, n: Name)
    requires s.mover.Routed? && s.mover.to == None && s.mover.target == n && n in s.w.ring
    ensures var s' := Step(cfg, s, MoverDo(if cfg.sharedDevice then Done else Wrote(s.w.ring[n].content)));
            && s'.w.clock == s.w.clock && s'.w.rotated == s.w.rotated
            && s'.mover == if cfg.sharedDevice then Asleep else Copied(n, None, s.mover.date)
  {
  }

  lemma UnlinkStep(cfg: Config, s: System, n: Name)
    requires s.mover.Copied? && s.mover.target == n
    ensures var s' := Step(cfg, s, MoverDo(Done));
            s'.w.clock == s.w.clock && s'.w.rotated == s.w.rotated && s'.mover == Asleep
  {
  }

  // ---------------------------------------------------------------- one above the threshold

  /** Ticks that find too few files and rotations alternate until the ring holds `m` files. */
  lemma {:induction false} FillOnTime(cfg: Config, rotate: int, period: int, m: nat) returns (s: System, excess: int)
    requires cfg.thresh >= 3 && QUIET <= rotate <= period && m <= cfg.thresh
    ensures Timeline(cfg, rotate, period, s, s.w.clock, excess) && s.mover == Asleep && |s.w.ring| == m
    ensures s.w.rotated <= s.w.clock
  {
    if m == 0 {
      s, excess := START, 0;
      Begin(cfg, rotate, period);
    } else {
      s, excess := FillOnTime(cfg, rotate, period, m - 1);
      hide Timeline;
      var tick := s.w.clock;
      RingSeen(cfg, rotate, period, s, tick, excess);
      s := Next(cfg, rotate, period, s, tick, excess, Wait(rotate));
      s := IdleTick(cfg, rotate, period, s, tick, excess);
      s := OpenNow(cfg, rotate, period, s, s.w.clock, excess - 1, tick);
    }
  }

  lemma RingSeen(cfg: Config, rotate: int, period: int, s: System, tick: int, excess: int)
    requires cfg.thresh >= 3 && Timeline(cfg, rotate, period, s, tick, excess)
    ensures forall x :: x in s.w.ring ==> s.w.ring[x].mtime <= s.w.clock
  {
    TimelineIsGood(cfg, rotate, period, s, tick, excess);
    hide Timeline, NewestPart, StrictPart, OthersQuiet, Distinct;
  }

  /** A tick that finds too few files. */
  lemma IdleTick(cfg: Config, rotate: int, period: nat, s: System, tick: int, excess: int) returns (s': System)
    requires Timeline(cfg, rotate, period, s, tick, excess) && s.mover == Asleep && |s.w.ring| < cfg.thresh
    ensures s' == s && Timeline(cfg, rotate, period, s', s.w.clock, excess - 1)
  {
    hide Timeline;
    s' := Next(cfg, rotate, period, s, tick, excess, MoverDo(Done));
  }

  /** A new capture file, at a time when nothing has been written since `before`. */
  lemma OpenNow(cfg: Config, rotate: int, period: int, s: System, tick: int, excess: int, before: int) returns (s': System)
    requires cfg.thresh >= 3 && QUIET <= rotate && Timeline(cfg, rotate, period, s, tick, excess)
    requires s.w.clock <= tick + period && s.w.rotated + rotate <= s.w.clock
    requires before < s.w.clock && forall x :: x in s.w.ring ==> s.w.ring[x].mtime <= before
    ensures Timeline(cfg, rotate, period, s', tick, excess + 1) && s'.mover == s.mover
    ensures s'.w.clock == s.w.clock && s'.w.rotated == s.w.clock && |s'.w.ring| == |s.w.ring| + 1
  {
    TimelineIsGood(cfg, rotate, period, s, tick, excess);
    hide Timeline, Ordered, NewName;
    var n := NewName(s.w.captured);
    CaptureSize(cfg, s, NewCapture(n));
    s' := Next(cfg, rotate, period, s, tick, excess, NewCapture(n));
  }

  /** A timer as slow as the rotation, or slower: one rotation falls inside a tick and another before the next tick. */
  lemma OneAbove(cfg: Config, rotate: int, period: int)
    requires cfg.thresh >= 3 && QUIET <= rotate <= period
    ensures !NeverAbove(cfg, rotate, period, cfg.thresh) && !RingNeverAbove(cfg, rotate, period, cfg.thresh + 1)
  {
    hide Timeline, NeverAbove, RingNeverAbove;
    var s, excess := FillOnTime(cfg, rotate, period, cfg.thresh);
    var before := s.w.clock;
    RingSeen(cfg, rotate, period, s, before, excess);
    s := Next(cfg, rotate, period, s, before, excess, Wait(rotate));
    var tick := s.w.clock;
    s := StartTick(cfg, rotate, period, s, before, excess);
    s := OpenNow(cfg, rotate, period, s, tick, excess - 1, before);
    s := CaptureAt(cfg, rotate, period, s, tick, excess, tick + rotate);
    TimelineEnds(cfg, rotate, period, s, tick, excess + 1, cfg.thresh);
  }

  /** The timer fires and the mover finds the threshold met. */
  lemma StartTick(cfg: Config, rotate: int, period: nat, s: System, tick: int, excess: int) returns (s': System)
    requires Timeline(cfg, rotate, period, s, tick, excess) && s.mover == Asleep && |s.w.ring| >= cfg.thresh
    ensures s' == s.(mover := Counted) && Timeline(cfg, rotate, period, s', s.w.clock, excess - 1)
  {
    hide Timeline;
    s' := Next(cfg, rotate, period, s, tick, excess, MoverDo(Done));
  }

  lemma TimelineEnds(cfg: Config, rotate: int, period: int, s: System, tick: int, excess: int, bound: int)
    requires Timeline(cfg, rotate, period, s, tick, excess) && Load(s) > bound
    ensures !NeverAbove(cfg, rotate, period, bound)
    ensures !s.mover.Asleep? ==> !RingNeverAbove(cfg, rotate, period, bound + 1)
  {
    var s0, es :| OnTime(cfg, s0, es, rotate, period) && Run(cfg, s0, es) == s
                  && LastTick(cfg, s0, es) == tick && Excess(cfg, s0, es) == excess;
  }

  // ---------------------------------------------------------------- growth without bound

  /** After `i` rotations and `j` ticks, neither is a full interval ahead of the other. */
  ghost predicate Racing(s: System, i: nat, j: nat, rotate: int, period: int) {
    && s.mover == Asleep && s.w.rotated <= i * rotate
    && s.w.clock < (i + 1) * rotate && s.w.clock <= (j + 1) * period
    && j * period <= (i + 1) * rotate
  }

  lemma Multiples(i: nat, j: nat, rotate: int, period: int)
    ensures (i + 1) * rotate == i * rotate + rotate && (i + 2) * rotate == i * rotate + rotate + rotate
    ensures (j + 1) * period == j * period + period && (j + 2) * period == j * period + period + period
  {
  }

  lemma RaceOn(cfg: Config, rotate: int, period: nat, s: System, i: nat, j: nat) returns (s': System, i': nat, j': nat)
    requires cfg.thresh >= 3 && QUIET <= rotate < period && Racing(s, i, j, rotate, period)
    requires Timeline(cfg, rotate, period, s, j * period, i - j)
    ensures i' + j' == i + j + 1 && Racing(s', i', j', rotate, period)
    ensures Timeline(cfg, rotate, period, s', j' * period, i' - j')
  {
    hide Timeline;
    Multiples(i, j, rotate, period);
    var tick, excess := j * period, i - j;
    if (i + 1) * rotate <= (j + 1) * period {
      i', j' := i + 1, j;
      s' := CaptureAt(cfg, rotate, period, s, tick, excess, (i + 1) * rotate);
    } else {
      i', j' := i, j + 1;
      s' := Next(cfg, rotate, period, s, tick, excess, Wait((j + 1) * period - s.w.clock));
      s' := FullTick(cfg, rotate, period, s', tick, excess);
    }
  }

  /** Rotations at every multiple of `rotate` and ticks at every multiple of `period`, `n` of them in all. */
  lemma {:induction false} Race(cfg: Config, rotate: int, period: nat, n: nat) returns (s: System, i: nat, j: nat)
    requires cfg.thresh >= 3 && QUIET <= rotate < period
    ensures i + j == n && Racing(s, i, j, rotate, period)
    ensures Timeline(cfg, rotate, period, s, j * period, i - j)
  {
    if n == 0 {
      s, i, j := START, 0, 0;
      Begin(cfg, rotate, period);
    } else {
      hide Racing, Timeline;
      s, i, j := Race(cfg, rotate, period, n - 1);
      s, i, j := RaceOn(cfg, rotate, period, s, i, j);
    }
  }

  /** The faster runner stays less than `b` ahead for a limited time only. */
  lemma RaceIsWon(i: nat, j: nat, rotate: int, period: int, b: nat)
    requires j * period <= (i + 1) * rotate && 0 < rotate < period && i - j < b
    ensures i + j < 2 * (b * rotate) + b
  {
    assert (i + 1) * rotate <= (j + b) * rotate == j * rotate + b * rotate;
    assert j * (rotate + 1) <= j * period;
    assert j * (rotate + 1) == j * rotate + j;
  }

  /** A timer slower than the rotation lets the ring grow beyond any bound. */
  lemma Grows(cfg: Config, rotate: int, period: nat, bound: int)
    requires cfg.thresh >= 3 && QUIET <= rotate < period
    ensures !RingNeverAbove(cfg, rotate, period, bound)
  {
    hide Timeline, NeverAbove, RingNeverAbove;
    LoadIsAlmostRing(cfg, rotate, period, bound);
    var b: nat := if bound < 0 then 0 else bound + 1;
    var s, i, j := Race(cfg, rotate, period, 2 * (b * rotate) + b);
    assert i - j >= b by {
      if i - j < b {
        RaceIsWon(i, j, rotate, period, b);
      }
    }
    TimelineIsGood(cfg, rotate, period, s, j * period, i - j);
    TimelineEnds(cfg, rotate, period, s, j * period, i - j, bound);
  }

  // ---------------------------------------------------------------- exactly when

  lemma FastTimerSuffices(cfg: Config, rotate: int, period: nat)
    requires cfg.thresh >= 3 && QUIET <= rotate && period <= rotate
    ensures NeverAbove(cfg, rotate, period, if period < rotate then cfg.thresh else cfg.thresh + 1)
  {
    forall s, es | OnTime(cfg, s, es, rotate, period)
      ensures Load(Run(cfg, s, es)) <= if period < rotate then cfg.thresh else cfg.thresh + 1
    {
      FreshSensorIsGood(cfg, s);
      InvIsOrdered(cfg, s);
      assert Load(s) == 0;
      hide Inv, OrderInv, Spaced, Run, Load, FreshSensor, AdmissibleRun, SmoothRun, TimerRun;
      TimerBoundsRing(cfg, s, es, rotate, period);
    }
  }

  /** With a working mover, a threshold of at least three and rotations at least QUIET_SECS apart: the ring of a fresh
      sensor never exceeds the threshold, not counting a file that a tick under way is about to take, if and only if the
      timer is faster than the rotation; counting it, that is one more; and the ring is bounded at all if and only if the
      timer is no slower than the rotation. */
  lemma RingBoundedIff(cfg: Config, rotate: int, period: nat)
    requires cfg.thresh >= 3 && QUIET <= rotate
    ensures NeverAbove(cfg, rotate, period, cfg.thresh) <==> period < rotate
    ensures RingNeverAbove(cfg, rotate, period, cfg.thresh + 1) <==> period < rotate
    ensures Bounded(cfg, rotate, period) <==> period <= rotate
  {
    hide NeverAbove, RingNeverAbove;
    if period <= rotate {
      FastTimerSuffices(cfg, rotate, period);
      LoadIsAlmostRing(cfg, rotate, period, if period < rotate then cfg.thresh else cfg.thresh + 1);
    }
    if rotate <= period {
      OneAbove(cfg, rotate, period);
    }
    if rotate < period {
      forall bound ensures !RingNeverAbove(cfg, rotate, period, bound) {
        Grows(cfg, rotate, period, bound);
      }
    }
  }
}
