/** Where the mover takes what it takes, and what that is: a file that has been quiet for three seconds, to the drive it
    saw or to the backlog. */
module Deliveries {
  import opened Hashing
  import opened Names
  import opened Files
  import opened Pipeline
  import opened Frames
  import opened Order
  import opened Safety
  import opened Manifests
  import OldestFirst

  // ---------------------------------------------------------------- the destination is what was seen

  /** The drive, or none, and the date that the mover saw last. */
  function LastRoute(cfg: Config, s: System, es: seq<Event>): Option<(Option<Mount>, Date)> {
    if es == [] then None
    else
      var k := |es| - 1;
      if es[k].MoverDo? && es[k].m.Seen? && Run(cfg, s, es[..k]).mover.Picked? then Some((es[k].m.at, es[k].m.date))
      else LastRoute(cfg, s, es[..k])
  }

  ghost predicate RoutedBy(m: Mover, route: Option<(Option<Mount>, Date)>) {
    match m
    case Making(_, mount, date) => route == Some((Some(mount), date))
    case Routed(_, to, date) => route == Some((to, date))
    case Copied(_, to, date) => route == Some((to, date))
    case _ => true
  }

  lemma StepRouted(cfg: Config, s: System, e: Event, route: Option<(Option<Mount>, Date)>)
    requires RoutedBy(s.mover, route)
    ensures var seen := e.MoverDo? && e.m.Seen? && s.mover.Picked?;
            RoutedBy(Step(cfg, s, e).mover, if seen then Some((e.m.at, e.m.date)) else route)
  {
    hide DaemonStep, OldestFirst.Pick, MakeDir, Put;
  }

  /** Over every run that starts with the mover asleep, it moves to the drive it saw, or to the backlog if it saw none. */
  lemma {:induction false} MovesAsSeen(cfg: Config, s: System, es: seq<Event>)
    requires s.mover.Asleep?
    ensures RoutedBy(Run(cfg, s, es).mover, LastRoute(cfg, s, es))
  {
    if es != [] {
      var k := |es| - 1;
      MovesAsSeen(cfg, s, es[..k]);
      StepRouted(cfg, Run(cfg, s, es[..k]), es[k], LastRoute(cfg, s, es[..k]));
      hide Step, RoutedBy;
    }
  }

  /** What the operator has left attached at `m`. */
  function Attached(s: System, es: seq<Event>, m: Mount): Option<nat> {
    if es == [] then if m in s.w.mounts then Some(s.w.mounts[m]) else None
    else
      var e := es[|es| - 1];
      if e.Attach? && e.at == m then Some(e.id) else if e.Detach? && e.at == m then None
      else Attached(s, es[..|es| - 1], m)
  }

  lemma StepMounts(cfg: Config, s: System, e: Event)
    ensures var mounts := Step(cfg, s, e).w.mounts;
            mounts == if e.Attach? then s.w.mounts[e.at := e.id] else if e.Detach? then s.w.mounts - {e.at} else s.w.mounts
  {
    if e.MoverDo? {
      MoverKeepsHistory(cfg, s.w, s.mover, e.m);
      hide MoverStep;
    } else if e.DaemonDo? {
      DaemonKeepsHistory(cfg, s.w, s.daemon, e.d);
      hide DaemonStep;
    }
  }

  /** Over every run, a mount point leads to the volume attached there last, or underneath once that is detached. */
  lemma {:induction false} PlaceIsAttached(cfg: Config, s: System, es: seq<Event>, m: Mount)
    ensures var at := Attached(s, es, m);
            Resolve(Run(cfg, s, es).w, m) == if at.Some? then Volume(at.value) else Bare(m)
  {
    if es != [] {
      PlaceIsAttached(cfg, s, es[..|es| - 1], m);
      StepMounts(cfg, Run(cfg, s, es[..|es| - 1]), es[|es| - 1]);
      hide Step;
    }
  }

  // ---------------------------------------------------------------- the target has been quiet

  ghost predicate TargetQuiet(w: World, m: Mover) {
    !m.Asleep? && !m.Counted? && m.target in w.ring ==> w.clock - w.ring[m.target].mtime >= 3_000_000_000
  }

  lemma PickedIsQuiet(cfg: Config, s: System, o: Io)
    requires Admissible(cfg, s, MoverDo(o)) && s.mover.Counted?
    ensures TargetQuiet(Step(cfg, s, MoverDo(o)).w, Step(cfg, s, MoverDo(o)).mover)
  {
    if o.Listed? {
      OldestFirst.PickIsOldest(s.w.ring, o.names, s.w.clock);
    }
    hide OldestFirst.Pick;
  }

  lemma MoverStaysQuiet(cfg: Config, s: System, o: Io)
    requires Admissible(cfg, s, MoverDo(o)) && TargetQuiet(s.w, s.mover)
    ensures TargetQuiet(Step(cfg, s, MoverDo(o)).w, Step(cfg, s, MoverDo(o)).mover)
  {
    if s.mover.Counted? {
      PickedIsQuiet(cfg, s, o);
    } else {
      MoverKeepsHistory(cfg, s.w, s.mover, o);
      MoverTakesOnlyTarget(cfg, s.w, s.mover, o);
      MoverKeepsTarget(cfg, s.w, s.mover, o);
      hide MoverStep;
    }
  }

  lemma MoverKeepsTarget(cfg: Config, w: World, m: Mover, o: Io)
    requires !m.Counted?
    ensures var m' := MoverStep(cfg, w, m, o).1; m'.Asleep? || m'.Counted? || (!m.Asleep? && m'.target == m.target)
  {
    hide MakeDir, Put;
  }

  lemma OthersStayQuiet(cfg: Config, s: System, e: Event)
    requires OrderInv(cfg, s) && Admissible(cfg, s, e) && TargetQuiet(s.w, s.mover) && !e.MoverDo?
    ensures TargetQuiet(Step(cfg, s, e).w, Step(cfg, s, e).mover)
  {
    hide NewestPart, StrictPart, OthersQuiet, Distinct, BacklogClosed;
    if e.DaemonDo? {
      DaemonKeepsHistory(cfg, s.w, s.daemon, e.d);
      hide DaemonStep;
    }
  }

  lemma StepQuiet(cfg: Config, s: System, e: Event)
    requires OrderInv(cfg, s) && Admissible(cfg, s, e) && TargetQuiet(s.w, s.mover)
    ensures TargetQuiet(Step(cfg, s, e).w, Step(cfg, s, e).mover)
  {
    hide OrderInv, Step, TargetQuiet, Admissible;
    if e.MoverDo? {
      MoverStaysQuiet(cfg, s, e.m);
    } else {
      OthersStayQuiet(cfg, s, e);
    }
  }

  /** Over every run, the file that the mover is about to take has not been written to for three seconds. */
  lemma {:induction false} OnlyQuietFilesLeave(cfg: Config, s: System, es: seq<Event>)
    requires Cautious(cfg) && OrderInv(cfg, s) && AdmissibleRun(cfg, s, es) && TargetQuiet(s.w, s.mover)
    ensures TargetQuiet(Run(cfg, s, es).w, Run(cfg, s, es).mover)
  {
    hide *;
    if es == [] {
      RunNil(cfg, s);
    } else {
      SplitRun(cfg, s, es);
      var k := |es| - 1;
      OnlyQuietFilesLeave(cfg, s, es[..k]);
      RunKeepsOrder(cfg, s, es[..k]);
      StepQuiet(cfg, Run(cfg, s, es[..k]), es[k]);
    }
  }

  // ---------------------------------------------------------------- it arrives

  /** Nobody attaches or detaches a volume where the mover is about to put a file. */
  ghost predicate MoverSteady(s: System, e: Event) {
    e.Attach? || e.Detach? ==>
      match s.mover
      case Making(_, mount, _) => e.at != mount
      case Routed(_, to, _) => to != Some(e.at)
      case Copied(_, to, _) => to != Some(e.at)
      case _ => true
  }

  ghost predicate MoverSteadyRun(cfg: Config, s: System, es: seq<Event>) {
    es != [] ==> MoverSteadyRun(cfg, s, es[..|es| - 1]) && MoverSteady(Run(cfg, s, es[..|es| - 1]), es[|es| - 1])
  }

  lemma MoverSteadySplit(cfg: Config, s: System, es: seq<Event>)
    requires MoverSteadyRun(cfg, s, es) && es != []
    ensures MoverSteadyRun(cfg, s, es[..|es| - 1]) && MoverSteady(Run(cfg, s, es[..|es| - 1]), es[|es| - 1])
  {
  }

  /** The directory is there for a file on its way to a drive, and the copy is for one that has been copied. */
  ghost predicate OnItsWay(w: World, m: Mover) {
    match m
    case Routed(_, to, date) => to.Some? ==> HasDir(w, Resolve(w, to.value), date)
    case Copied(n, to, date) =>
      to.Some? && n in w.ring && At(w.stores, Resolve(w, to.value), Path(date, n), w.ring[n].content)
    case _ => true
  }

  lemma MoverBringsOn(cfg: Config, s: System, o: Io)
    requires Dependable(cfg) && Inv(cfg, s) && Admissible(cfg, s, MoverDo(o)) && OnItsWay(s.w, s.mover)
    ensures OnItsWay(Step(cfg, s, MoverDo(o)).w, Step(cfg, s, MoverDo(o)).mover)
  {
    hide Ordered, StrictPart, Kept, CopyOk, DaemonOk, OldestFirst.Pick;
    if s.mover.Routed? && s.mover.to.Some? && s.mover.target in s.w.ring {
      var p, path := Resolve(s.w, s.mover.to.value), Path(s.mover.date, s.mover.target);
      PutIsAt(s.w, p, path, s.w.ring[s.mover.target].content, s.mover.date);
    }
  }

  /** Directories stay, and so do copies of files that are still in the ring. */
  ghost predicate RingCopiesStay(w: World, w': World) {
    && DirsKept(w.stores, w'.stores)
    && forall p: Place, path: Path, c: Content ::
         path.name in w.ring && At(w.stores, p, path, c) ==> At(w'.stores, p, path, c)
  }

  lemma MovingRingCopies(cfg: Config, s: System, b: Batch, t: Transfer, o: Io)
    requires Dependable(cfg) && Inv(cfg, s) && s.daemon == Moving(b, t) && !Returned(t)
    requires TransferOwed(cfg, s.w, JobOf(b), t, o)
    ensures RingCopiesStay(s.w, Step(cfg, s, DaemonDo(o)).w)
  {
    TransferKeeps(cfg, s.w, JobOf(b), t, o);
    MovingStep(cfg, s, b, t, o);
    hide OrderInv, AllKept, ClosedKnown, CopyOk, DaemonOk, TransferStep, TransferInv, At, Step, TransferOwed;
  }

  lemma TextsRingCopies(w: World, b: Batch, o: Io)
    ensures RingCopiesStay(w, WriteManifest(w, b, o)) && RingCopiesStay(w, AppendLog(w, b, o))
  {
    hide FirstLines;
  }

  lemma DaemonLeavesRingCopies(cfg: Config, s: System, o: Io)
    requires Dependable(cfg) && Inv(cfg, s) && Admissible(cfg, s, DaemonDo(o))
    ensures RingCopiesStay(s.w, Step(cfg, s, DaemonDo(o)).w)
  {
    assert RingCopiesStay(s.w, s.w);
    hide RingCopiesStay, TransferStep, WriteManifest, AppendLog, TransferOwed;
    if s.daemon.Moving? && !Returned(s.daemon.t) {
      MovingRingCopies(cfg, s, s.daemon.b, s.daemon.t, o);
    } else {
      hide Inv, Admissible;
      if s.daemon.Manifest? || s.daemon.Log? {
        TextsRingCopies(s.w, s.daemon.b, o);
      }
    }
  }

  lemma DaemonLetsItPass(cfg: Config, s: System, o: Io)
    requires Dependable(cfg) && Inv(cfg, s) && Admissible(cfg, s, DaemonDo(o)) && OnItsWay(s.w, s.mover)
    ensures OnItsWay(Step(cfg, s, DaemonDo(o)).w, Step(cfg, s, DaemonDo(o)).mover)
  {
    DaemonLeavesRingCopies(cfg, s, o);
    DaemonKeepsHistory(cfg, s.w, s.daemon, o);
    hide DaemonStep, Inv, Admissible, At;
  }

  lemma CaptureLetsItPass(cfg: Config, s: System, e: Event)
    requires Inv(cfg, s) && Admissible(cfg, s, e) && !e.MoverDo? && !e.DaemonDo? && MoverSteady(s, e)
    requires OnItsWay(s.w, s.mover)
    ensures OnItsWay(Step(cfg, s, e).w, Step(cfg, s, e).mover)
  {
    hide NewestPart, StrictPart, OthersQuiet, Distinct, BacklogClosed, Kept, CopyOk, DaemonOk, At;
  }

  lemma StepOnItsWay(cfg: Config, s: System, e: Event)
    requires Dependable(cfg) && Inv(cfg, s) && Admissible(cfg, s, e) && MoverSteady(s, e) && OnItsWay(s.w, s.mover)
    ensures OnItsWay(Step(cfg, s, e).w, Step(cfg, s, e).mover)
  {
    hide Inv, Step, OnItsWay, Admissible, MoverSteady;
    if e.MoverDo? {
      MoverBringsOn(cfg, s, e.m);
    } else if e.DaemonDo? {
      DaemonLetsItPass(cfg, s, e.d);
    } else {
      CaptureLetsItPass(cfg, s, e);
    }
  }

  lemma {:induction false} RunOnItsWay(cfg: Config, s: System, es: seq<Event>)
    requires Sane(cfg) && Inv(cfg, s) && AdmissibleRun(cfg, s, es) && MoverSteadyRun(cfg, s, es) && OnItsWay(s.w, s.mover)
    ensures OnItsWay(Run(cfg, s, es).w, Run(cfg, s, es).mover)
  {
    hide *;
    if es == [] {
      RunNil(cfg, s);
    } else {
      SplitRun(cfg, s, es);
      MoverSteadySplit(cfg, s, es);
      SaneIsDependable(cfg);
      var k := |es| - 1;
      RunOnItsWay(cfg, s, es[..k]);
      RunKeeps(cfg, s, es[..k]);
      StepOnItsWay(cfg, Run(cfg, s, es[..k]), es[k]);
    }
  }

  /** The file has gone where the mover was told: as it was, with its mtime, to the backlog, or into the dated directory of
      the drive. */
  ghost predicate Arrived(w: World, w': World, m: Mover, n: Name) {
    && (m.Routed? || m.Copied?) && m.target == n && n in w.ring
    && (m.to.None? ==> n in w'.backlog && w'.backlog[n] == w.ring[n])
    && (m.to.Some? ==> AtMount(w', m.to.value, Path(m.date, n), w.ring[n].content))
  }

  lemma MoverTakenHasArrived(cfg: Config, w: World, m: Mover, o: Io)
    requires Dependable(cfg) && MoverOwed(cfg, w, m, o) && OnItsWay(w, m)
    ensures var w' := MoverStep(cfg, w, m, o).0; w'.ring == w.ring || (o.Done? && Arrived(w, w', m, m.target))
  {
    if m.Routed? && m.to.Some? && m.target in w.ring {
      PutIsAt(w, Resolve(w, m.to.value), Path(m.date, m.target), w.ring[m.target].content, m.date);
      hide At, Put;
    } else {
      hide OldestFirst.Pick, At, MakeDir;
    }
  }

  lemma TakenHasArrived(cfg: Config, s: System, e: Event, n: Name)
    requires Dependable(cfg) && Inv(cfg, s) && Admissible(cfg, s, e) && OnItsWay(s.w, s.mover)
    requires n in s.w.ring && n !in Step(cfg, s, e).w.ring
    ensures e == MoverDo(Done) && Arrived(s.w, Step(cfg, s, e).w, s.mover, n)
  {
    hide Inv, OnItsWay, Arrived;
    if e.MoverDo? {
      MoverTakesOnlyTarget(cfg, s.w, s.mover, e.m);
      MoverTakenHasArrived(cfg, s.w, s.mover, e.m);
      hide MoverStep;
    } else if e.DaemonDo? {
      DaemonKeepsHistory(cfg, s.w, s.daemon, e.d);
      hide DaemonStep;
    }
  }

  /** Over every run in which nobody swaps volumes under the mover: whatever leaves the ring has been quiet for three
      seconds and has arrived, unchanged, where the mover last saw that it should go. */
  lemma MoverDelivers(cfg: Config, s: System, es: seq<Event>, e: Event, n: Name)
    requires Sane(cfg) && Inv(cfg, s) && s.mover.Asleep? && AdmissibleRun(cfg, s, es) && MoverSteadyRun(cfg, s, es)
    requires Admissible(cfg, Run(cfg, s, es), e)
    requires n in Run(cfg, s, es).w.ring && n !in Run(cfg, s, es + [e]).w.ring
    ensures var before, after := Run(cfg, s, es), Run(cfg, s, es + [e]);
            && e == MoverDo(Done) && Arrived(before.w, after.w, before.mover, n)
            && LastRoute(cfg, s, es) == Some((before.mover.to, before.mover.date))
            && before.w.clock - before.w.ring[n].mtime >= 3_000_000_000
  {
    SaneIsDependable(cfg);
    RunSnoc(cfg, s, es, e);
    assert TargetQuiet(s.w, s.mover) && OnItsWay(s.w, s.mover);
    InvIsOrdered(cfg, s);
    hide Run, Sane, Cautious, Dependable, Inv, OrderInv, AdmissibleRun, MoverSteadyRun, Admissible, LastRoute, Step;
    hide OnItsWay;
    RunKeeps(cfg, s, es);
    RunOnItsWay(cfg, s, es);
    OnlyQuietFilesLeave(cfg, s, es);
    MovesAsSeen(cfg, s, es);
    TakenHasArrived(cfg, Run(cfg, s, es), e, n);
    hide At;
  }
}
