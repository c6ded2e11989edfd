/** The ring is kept in capture order and the mover aims at its old end, whatever becomes of the copies. */
module Order {
  import opened Hashing
  import opened Names
  import opened Files
  import opened Pipeline
  import opened Frames
  import OldestFirst

  // ---------------------------------------------------------------- the invariant

  /** Ring files have mtimes in capture order. Behind a file of the ring at most the very next capture can be
      missing, and only the very next one can share its mtime. */
  ghost predicate NewestPart(captured: seq<Name>, ring: Directory) {
    forall i, j :: 0 <= i < j < |captured| && captured[i] in ring ==>
      && (i + 2 <= j ==> captured[j] in ring && ring[captured[i]].mtime < ring[captured[j]].mtime)
      && (captured[j] in ring ==> ring[captured[i]].mtime <= ring[captured[j]].mtime)
  }

  /** The ring is the newest part of the capture order, with mtimes strictly increasing along it. */
  ghost predicate StrictPart(captured: seq<Name>, ring: Directory) {
    forall i, j :: 0 <= i < j < |captured| && captured[i] in ring ==>
      captured[j] in ring && ring[captured[i]].mtime < ring[captured[j]].mtime
  }

  ghost predicate RingKnown(captured: seq<Name>, ring: Directory, clock: int) {
    forall n :: n in ring ==> n in captured && ring[n].mtime <= clock
  }

  /** Nothing but the newest capture has been written to since that one was opened. */
  ghost predicate OthersQuiet(captured: seq<Name>, ring: Directory, rotated: int) {
    forall i :: 0 <= i < |captured| - 1 && captured[i] in ring ==> ring[captured[i]].mtime <= rotated
  }

  /** The file being written is the newest of the ring. */
  ghost predicate ActiveIsLast(w: World) {
    w.active.Some? ==>
      w.captured != [] && w.captured[|w.captured| - 1] == w.active.value && w.active.value in w.ring
  }

  ghost predicate BacklogClosed(captured: seq<Name>, active: Option<Name>, backlog: Directory) {
    forall n :: n in backlog ==> n in captured && active != Some(n)
  }

  ghost predicate Ordered(w: World) {
    && Distinct(w.captured) && RingKnown(w.captured, w.ring, w.clock) && NewestPart(w.captured, w.ring)
    && OthersQuiet(w.captured, w.ring, w.rotated) && ActiveIsLast(w) && BacklogClosed(w.captured, w.active, w.backlog)
  }

  /** The file the mover is about to remove is the oldest of the ring and not the one being written. */
  ghost predicate MoverOk(cfg: Config, w: World, m: Mover) {
    match m
    case Asleep => true
    case Counted => |w.ring| >= cfg.thresh
    case _ => OldestFirst.Oldest(w.ring, m.target) && w.active != Some(m.target)
  }

  ghost predicate OrderInv(cfg: Config, s: System) {
    Ordered(s.w) && (!cfg.ties ==> StrictPart(s.w.captured, s.w.ring)) && MoverOk(cfg, s.w, s.mover)
  }

  /** How many files make sure that the oldest one is not being written: among two the older may tie with the
      newer if the clock is coarse. */
  function SafeThreshold(cfg: Config): nat {
    if cfg.ties then 3 else 2
  }

  ghost predicate Cautious(cfg: Config) {
    cfg.thresh >= SafeThreshold(cfg)
  }

  // ---------------------------------------------------------------- capture steps

  /** A capture step: files of the ring stay, except that the one being written may be touched again,
      and whatever is new is younger than everything else. */
  ghost predicate CaptureStep(w: World, w': World) {
    && w'.stores == w.stores && w'.backlog == w.backlog
    && (forall n :: n in w.ring ==> n in w'.ring && w.ring[n].mtime <= w'.ring[n].mtime)
    && (forall n :: n in w.ring && w.active != Some(n) ==> w'.ring[n] == w.ring[n] && w'.active != Some(n))
    && (forall n, x :: n in w'.ring && n !in w.ring && x in w.ring ==> w.ring[x].mtime <= w'.ring[n].mtime)
    && (forall n :: n in w'.ring && n !in w.ring ==> n !in w.captured)
  }

  lemma CaptureLeavesMover(cfg: Config, w: World, w': World, m: Mover)
    requires CaptureStep(w, w') && MoverOk(cfg, w, m)
    ensures MoverOk(cfg, w', m)
  {
    if m.Counted? {
      assert w.ring.Keys <= w'.ring.Keys;
      SubsetSize(w.ring.Keys, w'.ring.Keys);
      assert |w'.ring| == |w'.ring.Keys| && |w.ring| == |w.ring.Keys|;
    } else if !m.Asleep? {
      assert OldestFirst.Oldest(w.ring, m.target);
      forall x | x in w'.ring ensures w'.ring[m.target].mtime <= w'.ring[x].mtime {
        if x in w.ring {
          assert w.ring[x].mtime <= w'.ring[x].mtime;
        }
      }
    }
  }

  lemma SubsetSize<T>(a: set<T>, b: set<T>)
    requires a <= b
    ensures |a| <= |b|
  {
    assert b == a + (b - a);
  }

  /** Touching the newest capture keeps the ring in order. */
  lemma TouchKeepsOrder(captured: seq<Name>, ring: Directory, n: Name, f: File)
    requires Distinct(captured) && captured != [] && captured[|captured| - 1] == n && n in ring && ring[n].mtime <= f.mtime
    ensures NewestPart(captured, ring) ==> NewestPart(captured, ring[n := f])
    ensures StrictPart(captured, ring) ==> StrictPart(captured, ring[n := f])
  {
    assert forall i :: 0 <= i < |captured| - 1 ==> captured[i] != n;
  }

  lemma TouchKeepsRest(captured: seq<Name>, ring: Directory, n: Name, f: File, clock: int, rotated: int)
    requires Distinct(captured) && captured != [] && captured[|captured| - 1] == n && f.mtime <= clock
    requires RingKnown(captured, ring, clock) && OthersQuiet(captured, ring, rotated)
    ensures RingKnown(captured, ring[n := f], clock) && OthersQuiet(captured, ring[n := f], rotated)
  {
    assert forall i :: 0 <= i < |captured| - 1 ==> captured[i] != n;
    hide Distinct;
  }

  lemma WriteOrdered(w: World, data: Content)
    requires Ordered(w)
    ensures Ordered(Write(w, data))
    ensures StrictPart(w.captured, w.ring) ==> StrictPart(Write(w, data).captured, Write(w, data).ring)
  {
    if w.active.Some? {
      var n := w.active.value;
      TouchKeepsOrder(w.captured, w.ring, n, File(w.ring[n].content + data, w.clock));
      TouchKeepsRest(w.captured, w.ring, n, File(w.ring[n].content + data, w.clock), w.clock, w.rotated);
    }
    hide NewestPart, StrictPart, Distinct, RingKnown, OthersQuiet;
  }

  lemma WriteIsCaptureStep(w: World, data: Content)
    requires Ordered(w)
    ensures CaptureStep(w, Write(w, data))
  {
    hide NewestPart, Distinct, OthersQuiet, BacklogClosed;
  }

  lemma CloseOrdered(w: World)
    requires Ordered(w)
    ensures Ordered(CloseActive(w)) && CaptureStep(w, CloseActive(w))
  {
    hide NewestPart, RingKnown, OthersQuiet, Distinct;
  }

  lemma RotateNewestPart(w: World, n: Name)
    requires Ordered(w) && n !in w.captured && w.rotated < w.clock
    ensures NewestPart(w.captured + [n], w.ring[n := File([], w.clock)])
  {
    hide Distinct, ActiveIsLast, BacklogClosed;
    var c, ring := w.captured + [n], w.ring[n := File([], w.clock)];
    forall i, j | 0 <= i < j < |c| && c[i] in ring
      ensures i + 2 <= j ==> c[j] in ring && ring[c[i]].mtime < ring[c[j]].mtime
      ensures c[j] in ring ==> ring[c[i]].mtime <= ring[c[j]].mtime
    {
      assert c[i] == w.captured[i] && w.captured[i] in w.captured;
      if j < |w.captured| {
        assert w.captured[j] in w.captured;
      }
    }
  }

  lemma RotateStrictPart(w: World, n: Name)
    requires StrictPart(w.captured, w.ring) && n !in w.captured && forall x :: x in w.ring ==> w.ring[x].mtime < w.clock
    ensures StrictPart(w.captured + [n], w.ring[n := File([], w.clock)])
  {
    var c, ring := w.captured + [n], w.ring[n := File([], w.clock)];
    forall i, j | 0 <= i < j < |c| && c[i] in ring ensures c[j] in ring && ring[c[i]].mtime < ring[c[j]].mtime {
      assert c[i] == w.captured[i] && w.captured[i] in w.captured;
      if j < |w.captured| {
        assert w.captured[j] in w.captured;
      }
    }
  }

  lemma RotateOrdered(cfg: Config, w: World, n: Name)
    requires Ordered(w) && FreshCapture(cfg, w, n) && w.active == None
    ensures Ordered(Rotate(w, n)) && CaptureStep(w, Rotate(w, n))
  {
    RotateNewestPart(w, n);
    RotateRest(w.captured, w.ring, n, w.clock);
    DistinctSnoc(w.captured, n);
    RotateIsCaptureStep(w, n);
    hide NewestPart, Distinct, OthersQuiet, RingKnown, CaptureStep;
  }

  lemma RotateIsCaptureStep(w: World, n: Name)
    requires Ordered(w) && n !in w.captured && w.active == None
    ensures CaptureStep(w, Rotate(w, n))
  {
    hide NewestPart, Distinct, OthersQuiet, BacklogClosed;
  }

  lemma RotateRest(captured: seq<Name>, ring: Directory, n: Name, clock: int)
    requires RingKnown(captured, ring, clock) && n !in captured
    ensures RingKnown(captured + [n], ring[n := File([], clock)], clock)
    ensures OthersQuiet(captured + [n], ring[n := File([], clock)], clock)
  {
    var c, ring' := captured + [n], ring[n := File([], clock)];
    forall x | x in ring' ensures x in c && ring'[x].mtime <= clock {
      assert x == n || x in captured;
    }
    forall i | 0 <= i < |c| - 1 && c[i] in ring' ensures ring'[c[i]].mtime <= clock {
      assert captured[i] in captured;
    }
  }

  lemma CaptureKeepsOrder(cfg: Config, s: System, e: Event)
    requires OrderInv(cfg, s) && Admissible(cfg, s, e) && (e.Packets? || e.NewCapture? || e.StopCapture?)
    ensures OrderInv(cfg, Step(cfg, s, e))
  {
    var w := s.w;
    hide Ordered, CaptureStep;
    match e
    case Packets(data) =>
      WriteOrdered(w, data);
      WriteIsCaptureStep(w, data);
      CaptureLeavesMover(cfg, w, Write(w, data), s.mover);
    case StopCapture =>
      CloseOrdered(w);
      CaptureLeavesMover(cfg, w, CloseActive(w), s.mover);
    case NewCapture(n) =>
      var c := CloseActive(w);
      CloseOrdered(w);
      CaptureLeavesMover(cfg, w, c, s.mover);
      RotateOrdered(cfg, c, n);
      assert Rotate(c, n) == Rotate(w, n);
      CaptureLeavesMover(cfg, c, Rotate(w, n), s.mover);
      if !cfg.ties {
        RotateStrictPart(w, n);
      }
  }

  lemma ClockAndMountsKeepOrder(cfg: Config, s: System, clock: int, mounts: map<Mount, nat>)
    requires OrderInv(cfg, s) && clock >= s.w.clock
    ensures OrderInv(cfg, s.(w := s.w.(clock := clock, mounts := mounts)))
  {
    hide NewestPart, StrictPart, OthersQuiet, Distinct;
  }

  // ---------------------------------------------------------------- mover steps

  /** With that many files in the ring, the oldest one is not the one being written. */
  lemma OldestIsNotActive(cfg: Config, w: World, n: Name)
    requires Ordered(w) && (!cfg.ties ==> StrictPart(w.captured, w.ring))
    requires OldestFirst.Oldest(w.ring, n) && |w.ring| >= SafeThreshold(cfg)
    ensures w.active != Some(n)
  {
    var c := w.captured;
    if w.active == Some(n) {
      var x := OneMore(w.ring, {n} + if cfg.ties && |c| >= 2 then {c[|c| - 2]} else {});
    }
  }

  /** A directory with more files than `some` has another one. */
  lemma OneMore(dir: Directory, some: set<Name>) returns (x: Name)
    requires |dir| > |some|
    ensures x in dir && x !in some
  {
    assert |dir| == |dir.Keys|;
    if dir.Keys <= some {
      SubsetSize(dir.Keys, some);
      assert false;
    }
    x :| x in dir.Keys && x !in some;
  }

  /** Removing the oldest file keeps the order. */
  lemma RemoveOldestOrdered(w: World, w': World, n: Name)
    requires Ordered(w) && OldestFirst.Oldest(w.ring, n) && w.active != Some(n)
    requires w' == w.(ring := w.ring - {n}, backlog := w'.backlog, stores := w'.stores)
    requires BacklogClosed(w.captured, w.active, w'.backlog)
    ensures Ordered(w')
    ensures StrictPart(w.captured, w.ring) ==> StrictPart(w'.captured, w'.ring)
  {
    hide Distinct, BacklogClosed, OldestFirst.Oldest, NewestPart, StrictPart;
    RemoveOldestInOrder(w.captured, w.ring, n);
  }

  lemma RemoveOldestInOrder(captured: seq<Name>, ring: Directory, n: Name)
    requires OldestFirst.Oldest(ring, n)
    ensures NewestPart(captured, ring) ==> NewestPart(captured, ring - {n})
    ensures StrictPart(captured, ring) ==> StrictPart(captured, ring - {n})
  {
    var ring' := ring - {n};
    forall i | 0 <= i < |captured| && captured[i] in ring' ensures ring[n].mtime <= ring[captured[i]].mtime {
    }
    if NewestPart(captured, ring) {
      forall i, j | 0 <= i < j < |captured| && captured[i] in ring'
        ensures i + 2 <= j ==> captured[j] in ring' && ring'[captured[i]].mtime < ring'[captured[j]].mtime
        ensures captured[j] in ring' ==> ring'[captured[i]].mtime <= ring'[captured[j]].mtime
      {
      }
    }
  }

  lemma MoverBacklogClosed(cfg: Config, s: System, o: Io)
    requires OrderInv(cfg, s)
    ensures BacklogClosed(s.w.captured, s.w.active, MoverStep(cfg, s.w, s.mover, o).0.backlog)
  {
    MoverAddsOnlyTarget(cfg, s.w, s.mover, o);
    hide MoverStep, NewestPart, StrictPart, OthersQuiet, Distinct;
  }

  lemma MoverAims(cfg: Config, s: System, o: Io)
    requires Cautious(cfg) && OrderInv(cfg, s) && Admissible(cfg, s, MoverDo(o))
    requires var (w', m') := MoverStep(cfg, s.w, s.mover, o); w'.ring == s.w.ring || m'.Asleep?
    ensures var (w', m') := MoverStep(cfg, s.w, s.mover, o); MoverOk(cfg, w', m')
  {
    var w := s.w;
    MoverKeepsHistory(cfg, w, s.mover, o);
    if s.mover.Counted? && o.Listed? {
      OldestFirst.PickIsOldest(w.ring, o.names, w.clock);
      var pick := OldestFirst.Pick(w.ring, o.names, w.clock);
      hide OldestFirst.Pick;
      if pick.Some? {
        OldestIsNotActive(cfg, w, pick.value);
      }
    }
    hide Ordered, StrictPart;
  }

  lemma MoverKeepsOrder(cfg: Config, s: System, o: Io)
    requires Cautious(cfg) && OrderInv(cfg, s) && Admissible(cfg, s, MoverDo(o))
    ensures OrderInv(cfg, Step(cfg, s, MoverDo(o)))
  {
    var w := s.w;
    var (w', m') := MoverStep(cfg, w, s.mover, o);
    MoverKeepsHistory(cfg, w, s.mover, o);
    MoverTakesOnlyTarget(cfg, w, s.mover, o);
    MoverBacklogClosed(cfg, s, o);
    MoverAims(cfg, s, o);
    hide MoverStep, Admissible, NewestPart, StrictPart, OthersQuiet, RingKnown, Distinct, BacklogClosed;
    if w'.ring != w.ring {
      RemoveOldestOrdered(w, w', s.mover.target);
    }
  }

  // ---------------------------------------------------------------- every step, every run

  lemma DaemonKeepsOrder(cfg: Config, s: System, o: Io)
    requires OrderInv(cfg, s)
    ensures OrderInv(cfg, Step(cfg, s, DaemonDo(o)))
  {
    DaemonKeepsHistory(cfg, s.w, s.daemon, o);
    hide DaemonStep, NewestPart, StrictPart, OthersQuiet, RingKnown, Distinct;
  }

  lemma StepKeepsOrder(cfg: Config, s: System, e: Event)
    requires Cautious(cfg) && OrderInv(cfg, s) && Admissible(cfg, s, e)
    ensures OrderInv(cfg, Step(cfg, s, e))
  {
    hide OrderInv, Admissible, MoverStep, DaemonStep;
    match e
    case Wait(nanos) => ClockAndMountsKeepOrder(cfg, s, s.w.clock + nanos, s.w.mounts);
    case Attach(m, id) => ClockAndMountsKeepOrder(cfg, s, s.w.clock, s.w.mounts[m := id]);
    case Detach(m) => ClockAndMountsKeepOrder(cfg, s, s.w.clock, s.w.mounts - {m});
    case MoverDo(o) => MoverKeepsOrder(cfg, s, o);
    case DaemonDo(o) => DaemonKeepsOrder(cfg, s, o);
    case MoverKilled => KillKeepsOrder(cfg, s, e);
    case DaemonKilled => KillKeepsOrder(cfg, s, e);
    case _ => CaptureKeepsOrder(cfg, s, e);
  }

  lemma KillKeepsOrder(cfg: Config, s: System, e: Event)
    requires OrderInv(cfg, s) && (e.MoverKilled? || e.DaemonKilled?)
    ensures OrderInv(cfg, Step(cfg, s, e))
  {
    hide Ordered, StrictPart;
  }

  /** In every run, whatever fails and however files are copied, the ring stays in capture order and the mover
      aims at the old end of it. */
  lemma {:induction false} RunKeepsOrder(cfg: Config, s: System, es: seq<Event>)
    requires Cautious(cfg) && OrderInv(cfg, s) && AdmissibleRun(cfg, s, es)
    ensures OrderInv(cfg, Run(cfg, s, es))
  {
    if es != [] {
      SplitRun(cfg, s, es);
      hide *;
      var k := |es| - 1;
      RunKeepsOrder(cfg, s, es[..k]);
      StepKeepsOrder(cfg, Run(cfg, s, es[..k]), es[k]);
    }
  }
}
