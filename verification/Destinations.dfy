/** What is at the destination of a transfer: the file, once its source is gone; nothing, after a failure in which every
    call came back; a fragment, after a copy that broke off. And nothing is anywhere but in a directory that was made. */
module Destinations {
  import opened Hashing
  import opened Names
  import opened Files
  import opened Pipeline
  import opened Frames
  import opened Order
  import opened Safety
  import opened Manifests
  import opened Sorting
  import opened Deliveries
  import OldestFirst

  // ---------------------------------------------------------------- what leaves the backlog

  /** The calls of transfer_file that take its file from the backlog. */
  ghost predicate Unlinks(t: Transfer) {
    t.Move? || t.MoveUnlink? || t.UnlinkSource?
  }

  lemma TransferTakes(cfg: Config, w: World, job: Job, t: Transfer, o: Io)
    requires Delivered(cfg, w, job, t)
    ensures var w' := TransferStep(cfg, w, job, t, o).0;
            || w'.backlog == w.backlog
            || (&& job.name in w.backlog && w'.backlog == w.backlog - {job.name} && o.Done? && Unlinks(t)
                && AtMount(w', job.mount, Path(job.date, job.name), w.backlog[job.name].content))
  {
    if t.Move? && job.name in w.backlog {
      PutIsAt(w, Resolve(w, job.mount), Path(job.date, job.name), w.backlog[job.name].content, job.date);
      hide At, Put, HasDir, BadCopyAt;
    } else {
      hide At, Put, Remove, MakeDir, BadCopyAt;
    }
  }

  lemma StepTakes(cfg: Config, s: System, e: Event, n: Name)
    requires Dependable(cfg) && Inv(cfg, s) && Truthful(cfg, s) && Admissible(cfg, s, e)
    requires n in s.w.backlog && n !in Step(cfg, s, e).w.backlog
    ensures e == DaemonDo(Done) && s.daemon.Moving? && Unlinks(s.daemon.t) && JobOf(s.daemon.b).name == n
    ensures var b, w' := s.daemon.b, Step(cfg, s, e).w; AtMount(w', b.mount, Path(b.date, n), s.w.backlog[n].content)
  {
    hide AtMount, Inv, ManifestsTrue, BatchTrue, Admissible, Delivered;
    StepLeavesCopies(cfg, s, e);
    if e.DaemonDo? && s.daemon.Moving? && !Returned(s.daemon.t) {
      MovingIsGood(cfg, s, s.daemon.b, s.daemon.t);
      MovingStep(cfg, s, s.daemon.b, s.daemon.t, e.d);
      TransferTakes(cfg, s.w, JobOf(s.daemon.b), s.daemon.t, e.d);
      hide TransferStep, CopiesFinal, Step;
    } else {
      hide CopiesFinal, TransferStep, MoverStep, WriteManifest, AppendLog;
      if e.DaemonDo? && (s.daemon.Manifest? || s.daemon.Log?) {
        TextsKeepBacklog(s.w, s.daemon.b, e.d);
      }
    }
  }

  lemma TextsKeepBacklog(w: World, b: Batch, o: Io)
    ensures WriteManifest(w, b, o).backlog == w.backlog && AppendLog(w, b, o).backlog == w.backlog
  {
  }

  /** Over every run without a swap under the batch: a file leaves the backlog only by a call of the transfer for it that
      succeeds, and then its content is in the dated directory at the mount point. */
  lemma DaemonDelivers(cfg: Config, s: System, es: seq<Event>, e: Event, n: Name)
    requires Sane(cfg) && Inv(cfg, s) && Truthful(cfg, s) && AdmissibleRun(cfg, s, es) && SteadyRun(cfg, s, es)
    requires Admissible(cfg, Run(cfg, s, es), e)
    requires n in Run(cfg, s, es).w.backlog && n !in Run(cfg, s, es + [e]).w.backlog
    ensures var before, after := Run(cfg, s, es), Run(cfg, s, es + [e]);
            && e == DaemonDo(Done) && before.daemon.Moving? && Unlinks(before.daemon.t) && JobOf(before.daemon.b).name == n
            && AtMount(after.w, before.daemon.b.mount, Path(before.daemon.b.date, n), before.w.backlog[n].content)
  {
    SaneIsDependable(cfg);
    RunSnoc(cfg, s, es, e);
    hide *;
    RunKeeps(cfg, s, es);
    ManifestsStayTrue(cfg, s, es);
    StepTakes(cfg, Run(cfg, s, es), e, n);
  }

  // ---------------------------------------------------------------- what a failed transfer leaves

  /** The call comes back, and a move has renamed if it says so; what a copy has written is open. */
  ghost predicate TransferReturns(cfg: Config, w: World, job: Job, t: Transfer, o: Io) {
    match t
    case Move => o.Wrote? || (o.Done? && SameDevice(cfg, Resolve(w, job.mount)))
    case Copy => o.Wrote?
    case _ => o.Done?
  }

  ghost predicate CallReturns(cfg: Config, s: System, e: Event) {
    e.DaemonDo? && s.daemon.Moving? && !Returned(s.daemon.t) ==>
      TransferReturns(cfg, s.w, JobOf(s.daemon.b), s.daemon.t, e.d)
  }

  ghost predicate ReturningRun(cfg: Config, s: System, es: seq<Event>) {
    es != [] ==> ReturningRun(cfg, s, es[..|es| - 1]) && CallReturns(cfg, Run(cfg, s, es[..|es| - 1]), es[|es| - 1])
  }

  lemma ReturningSplit(cfg: Config, s: System, es: seq<Event>)
    requires ReturningRun(cfg, s, es) && es != []
    ensures ReturningRun(cfg, s, es[..|es| - 1]) && CallReturns(cfg, Run(cfg, s, es[..|es| - 1]), es[|es| - 1])
  {
  }

  ghost predicate Vacant(stores: map<Place, Store>, p: Place, path: Path) {
    forall c: Content :: !At(stores, p, path, c)
  }

  ghost predicate CleanFailure(w: World, d: Daemon) {
    d.Moving? && d.t.Failed? ==> Vacant(w.stores, Resolve(w, d.b.mount), Path(d.b.date, JobOf(d.b).name))
  }

  lemma TransferFailsClean(cfg: Config, w: World, job: Job, t: Transfer, o: Io)
    requires TransferOk(cfg, w, job.name, t) && Delivered(cfg, w, job, t) && TransferReturns(cfg, w, job, t, o)
    requires !Returned(t)
    ensures var (w', t') := TransferStep(cfg, w, job, t, o);
            t'.Failed? ==> Vacant(w'.stores, Resolve(w', job.mount), Path(job.date, job.name))
  {
    hide Put, MakeDir, Stored, BadCopyAt;
  }

  lemma DaemonFailsClean(cfg: Config, s: System, o: Io)
    requires Inv(cfg, s) && Truthful(cfg, s) && CallReturns(cfg, s, DaemonDo(o))
    ensures CleanFailure(Step(cfg, s, DaemonDo(o)).w, Step(cfg, s, DaemonDo(o)).daemon)
  {
    if s.daemon.Moving? && !Returned(s.daemon.t) {
      MovingIsGood(cfg, s, s.daemon.b, s.daemon.t);
      MovingStep(cfg, s, s.daemon.b, s.daemon.t, o);
      TransferFailsClean(cfg, s.w, JobOf(s.daemon.b), s.daemon.t, o);
      hide Step, TransferStep, Inv, Truthful, Vacant, Ordered, Kept, TransferOk, Delivered, TransferReturns;
    } else {
      hide Inv, Truthful, Settle, SortNames, WriteManifest, AppendLog, Vacant;
    }
  }

  /** No copy is new but under name `n`. */
  ghost predicate AddsOnly(stores: map<Place, Store>, stores': map<Place, Store>, n: Name) {
    forall p: Place, path: Path, c: Content ::
      At(stores', p, path, c) && !At(stores, p, path, c) ==> path.name == n
  }

  lemma PutAddsOnly(w: World, p: Place, path: Path, c: Content)
    ensures AddsOnly(w.stores, Put(w, p, path, c).stores, path.name)
  {
  }

  lemma MakeDirAddsNone(w: World, p: Place, date: Date, n: Name)
    ensures AddsOnly(w.stores, MakeDir(w, p, date).stores, n)
  {
  }

  lemma MoverMoveAddsOnly(cfg: Config, w: World, n: Name, to: Option<Mount>, date: Date, o: Io)
    ensures AddsOnly(w.stores, MoverMove(cfg, w, n, to, date, o).0.stores, n)
  {
    assert AddsOnly(w.stores, w.stores, n);
    if to.Some? && n in w.ring {
      var p, path := Resolve(w, to.value), Path(date, n);
      PutAddsOnly(w, p, path, w.ring[n].content);
      PutAddsOnly(w, p, path, if o.Wrote? then o.data else []);
      PutAddsOnly(w, p, path, if Partial(o).Some? then Partial(o).value else []);
    }
    hide AddsOnly, Put, HasDir, SameDevice, Resolve;
  }

  /** The mover puts a copy nowhere but under the name of its target. */
  lemma MoverAddsCopies(cfg: Config, w: World, m: Mover, o: Io, n: Name)
    requires !m.Asleep? && !m.Counted? ==> m.target == n
    ensures AddsOnly(w.stores, MoverStep(cfg, w, m, o).0.stores, n)
  {
    assert AddsOnly(w.stores, w.stores, n);
    hide AddsOnly, MoverMove, MakeDir, Resolve, OldestFirst.Pick;
    if m.Routed? {
      MoverMoveAddsOnly(cfg, w, m.target, m.to, m.date, o);
    } else if m.Making? {
      MakeDirAddsNone(w, Resolve(w, m.mount), m.date, n);
    }
  }

  lemma OthersAddNone(cfg: Config, s: System, e: Event, path: Path)
    requires Inv(cfg, s) && Admissible(cfg, s, e) && !e.DaemonDo? && path.name in s.w.backlog
    ensures forall p: Place :: Vacant(s.w.stores, p, path) ==> Vacant(Step(cfg, s, e).w.stores, p, path)
  {
    if e.MoverDo? {
      var n := if s.mover.Asleep? || s.mover.Counted? then path.name + "x" else s.mover.target;
      MoverAddsCopies(cfg, s.w, s.mover, e.m, n);
      hide MoverStep, At, Ordered, AllKept, ClosedKnown, CopyOk, DaemonOk;
    } else {
      hide Inv, Admissible, At;
    }
  }

  lemma OthersFailClean(cfg: Config, s: System, e: Event)
    requires Inv(cfg, s) && Admissible(cfg, s, e) && SteadyEvent(s, e) && !e.DaemonDo? && CleanFailure(s.w, s.daemon)
    ensures CleanFailure(Step(cfg, s, e).w, Step(cfg, s, e).daemon)
  {
    var s' := Step(cfg, s, e);
    assert s'.daemon == s.daemon || s'.daemon.Idle?;
    if s'.daemon.Moving? && s.daemon.t.Failed? {
      SteadyResolve(cfg, s, e);
      assert JobOf(s.daemon.b).name in s.w.backlog by {
        hide OrderInv, Kept, CopyOk, Step;
      }
      OthersAddNone(cfg, s, e, Path(s.daemon.b.date, JobOf(s.daemon.b).name));
    }
    hide Step, Inv, Admissible, Vacant;
  }

  lemma StepFailsClean(cfg: Config, s: System, e: Event)
    requires Inv(cfg, s) && Truthful(cfg, s) && Admissible(cfg, s, e) && SteadyEvent(s, e) && CallReturns(cfg, s, e)
    requires CleanFailure(s.w, s.daemon)
    ensures CleanFailure(Step(cfg, s, e).w, Step(cfg, s, e).daemon)
  {
    hide *;
    if e.DaemonDo? {
      DaemonFailsClean(cfg, s, e.d);
    } else {
      OthersFailClean(cfg, s, e);
    }
  }

  /** Over every run without a swap under the batch in which every call of a transfer comes back, whatever its copies hold:
      a transfer that failed has left nothing at its destination. */
  lemma {:induction false} FailureLeavesNothing(cfg: Config, s: System, es: seq<Event>)
    requires Sane(cfg) && Inv(cfg, s) && Truthful(cfg, s) && CleanFailure(s.w, s.daemon)
    requires AdmissibleRun(cfg, s, es) && SteadyRun(cfg, s, es) && ReturningRun(cfg, s, es)
    ensures CleanFailure(Run(cfg, s, es).w, Run(cfg, s, es).daemon)
  {
    hide *;
    if es == [] {
      RunNil(cfg, s);
    } else {
      SplitRun(cfg, s, es);
      SteadySplit(cfg, s, es);
      ReturningSplit(cfg, s, es);
      var k := |es| - 1;
      FailureLeavesNothing(cfg, s, es[..k]);
      RunKeeps(cfg, s, es[..k]);
      ManifestsStayTrue(cfg, s, es[..k]);
      StepFailsClean(cfg, Run(cfg, s, es[..k]), es[k]);
    }
  }

  // ---------------------------------------------------------------- what a copy leaves

  /** What a copying call has put on the medium, whether it came back or broke off; None if nothing. */
  function CopiedData(o: Io): Option<Content> {
    if o.Wrote? then Some(o.data) else if o.Raise? then o.partial else None
  }

  lemma TransferCopyLeaves(cfg: Config, w: World, job: Job, t: Transfer, o: Io)
    requires TransferOk(cfg, w, job.name, t) && Delivered(cfg, w, job, t) && (t.Copy? || t.Move?) && (o.Wrote? || o.Raise?)
    ensures var (w', t') := TransferStep(cfg, w, job, t, o);
            && (t'.Failed? <==> o.Raise?) && w' == w.(stores := w'.stores)
            && match CopiedData(o)
               case Some(c) => At(w'.stores, Resolve(w', job.mount), Path(job.date, job.name), c)
               case None => w' == w
  {
    if CopiedData(o).Some? {
      PutIsAt(w, Resolve(w, job.mount), Path(job.date, job.name), CopiedData(o).value, job.date);
    }
    hide Put, HasDir, At;
  }

  /** Over every run without a swap under the batch: a copy by the daemon leaves at the destination what it has written,
      also if it breaks off, and the source where it was; the transfer has failed at once exactly if it broke off. */
  lemma DaemonCopyLeaves(cfg: Config, s: System, es: seq<Event>, b: Batch, t: Transfer, o: Io)
    requires Sane(cfg) && Inv(cfg, s) && Truthful(cfg, s) && AdmissibleRun(cfg, s, es) && SteadyRun(cfg, s, es)
    requires Run(cfg, s, es).daemon == Moving(b, t) && (t.Copy? || t.Move?) && (o.Wrote? || o.Raise?)
    ensures var w, after := Run(cfg, s, es).w, Run(cfg, s, es + [DaemonDo(o)]);
            && after.daemon.Moving? && after.daemon.b == b && (after.daemon.t.Failed? <==> o.Raise?)
            && JobOf(b).name in after.w.backlog && after.w.backlog == w.backlog
            && match CopiedData(o)
               case Some(c) => AtMount(after.w, b.mount, Path(b.date, JobOf(b).name), c)
               case None => after.w == w
  {
    RunKeeps(cfg, s, es);
    ManifestsStayTrue(cfg, s, es);
    RunSnoc(cfg, s, es, DaemonDo(o));
    var s' := Run(cfg, s, es);
    hide Run, AdmissibleRun, SteadyRun, Sane, Inv, ManifestsTrue, At, CopiedData;
    MovingIsGood(cfg, s', b, t);
    MovingStep(cfg, s', b, t, o);
    TransferCopyLeaves(cfg, s'.w, JobOf(b), t, o);
    hide Truthful, Ordered, Kept, Step, TransferStep, Delivered;
  }

  lemma MoverCopyToDrive(cfg: Config, w: World, n: Name, mount: Mount, date: Date, o: Io)
    requires n in w.ring && HasDir(w, Resolve(w, mount), date) && (o.Wrote? || o.Raise?)
    ensures var w' := MoverMove(cfg, w, n, Some(mount), date, o).0;
            && w' == w.(stores := w'.stores)
            && match CopiedData(o)
               case Some(c) => At(w'.stores, Resolve(w', mount), Path(date, n), c)
               case None => w' == w
  {
    if CopiedData(o).Some? {
      PutIsAt(w, Resolve(w, mount), Path(date, n), CopiedData(o).value, date);
    }
    hide Put, HasDir, At;
  }

  lemma MoverCopyToBacklog(cfg: Config, w: World, n: Name, date: Date, o: Io)
    requires n in w.ring && (o.Wrote? || o.Raise?)
    ensures var w' := MoverMove(cfg, w, n, None, date, o).0;
            && w' == w.(backlog := w'.backlog)
            && match CopiedData(o)
               case Some(c) => w'.backlog == w.backlog[n := File(c, if o.Wrote? then w.ring[n].mtime else w.clock)]
               case None => w' == w
  {
  }

  lemma RoutedIsReady(cfg: Config, s: System)
    requires Inv(cfg, s) && OnItsWay(s.w, s.mover) && s.mover.Routed?
    ensures s.mover.target in s.w.ring
    ensures s.mover.to.Some? ==> HasDir(s.w, Resolve(s.w, s.mover.to.value), s.mover.date)
  {
    hide Ordered, StrictPart, Kept, CopyOk, DaemonOk, HasDir;
  }

  lemma RoutedStep(cfg: Config, s: System, o: Io)
    requires s.mover.Routed?
    ensures Step(cfg, s, MoverDo(o)).w == MoverMove(cfg, s.w, s.mover.target, s.mover.to, s.mover.date, o).0
  {
    hide MoverMove;
  }

  /** Over every run without a swap under the mover: so does a copy by the mover, to the drive or, with the mtime of the
      source unless it broke off, to the backlog. */
  lemma MoverCopyLeaves(cfg: Config, s: System, es: seq<Event>, n: Name, to: Option<Mount>, date: Date, o: Io)
    requires Sane(cfg) && Inv(cfg, s) && AdmissibleRun(cfg, s, es) && MoverSteadyRun(cfg, s, es) && OnItsWay(s.w, s.mover)
    requires Run(cfg, s, es).mover == Routed(n, to, date) && (o.Wrote? || o.Raise?)
    ensures n in Run(cfg, s, es).w.ring
    ensures var w, after := Run(cfg, s, es).w, Run(cfg, s, es + [MoverDo(o)]);
            && after.w.ring == w.ring
            && match CopiedData(o)
               case Some(c) =>
                 if to.Some? then AtMount(after.w, to.value, Path(date, n), c)
                 else after.w.backlog == w.backlog[n := File(c, if o.Wrote? then w.ring[n].mtime else w.clock)]
               case None => after.w == w
  {
    RunKeeps(cfg, s, es);
    RunOnItsWay(cfg, s, es);
    RunSnoc(cfg, s, es, MoverDo(o));
    var s' := Run(cfg, s, es);
    hide Run, AdmissibleRun, MoverSteadyRun, Sane, Inv, OnItsWay, HasDir, At, CopiedData, Step, MoverMove;
    RoutedIsReady(cfg, s');
    RoutedStep(cfg, s', o);
    if to.Some? {
      MoverCopyToDrive(cfg, s'.w, n, to.value, date, o);
    } else {
      MoverCopyToBacklog(cfg, s'.w, n, date, o);
    }
  }

  // ---------------------------------------------------------------- directories

  /** Every file and every manifest is in a directory. */
  ghost predicate Shelved(stores: map<Place, Store>) {
    forall p :: p in stores ==>
      && (forall path :: path in stores[p].files ==> path.date in stores[p].dirs)
      && (forall d :: d in stores[p].manifests ==> d in stores[p].dirs)
  }

  lemma PutShelved(w: World, p: Place, path: Path, c: Content)
    requires Shelved(w.stores) && p in w.stores && path.date in w.stores[p].dirs
    ensures Shelved(Put(w, p, path, c).stores)
  {
  }

  lemma HasDirIs(w: World, p: Place, d: Date)
    requires HasDir(w, p, d)
    ensures p in w.stores && d in w.stores[p].dirs
  {
  }

  lemma MakeDirShelved(w: World, p: Place, d: Date)
    requires Shelved(w.stores)
    ensures Shelved(MakeDir(w, p, d).stores)
  {
  }

  lemma RemoveShelved(w: World, p: Place, path: Path)
    requires Shelved(w.stores)
    ensures Shelved(Remove(w, p, path).stores)
  {
  }

  /** The calls that put a file at a destination. */
  lemma PutsShelved(w: World, p: Place, path: Path, c: Content, o: Io)
    requires Shelved(w.stores) && HasDir(w, p, path.date)
    ensures Shelved(Put(w, p, path, c).stores) && Shelved(PutPartial(w, p, path, Partial(o)).stores)
    ensures o.Wrote? ==> Shelved(Put(w, p, path, o.data).stores)
  {
    HasDirIs(w, p, path.date);
    PutShelved(w, p, path, c);
    PutShelved(w, p, path, if Partial(o).Some? then Partial(o).value else []);
    PutShelved(w, p, path, if o.Wrote? then o.data else []);
    hide Put, Shelved, HasDir;
  }

  lemma TransferShelved(cfg: Config, w: World, job: Job, t: Transfer, o: Io)
    requires Shelved(w.stores)
    ensures Shelved(TransferStep(cfg, w, job, t, o).0.stores)
  {
    var p, path := Resolve(w, job.mount), Path(job.date, job.name);
    MakeDirShelved(w, p, job.date);
    RemoveShelved(w, p, path);
    if HasDir(w, p, job.date) {
      PutsShelved(w, p, path, if job.name in w.backlog then w.backlog[job.name].content else [], o);
    }
    hide Shelved, HasDir, Put, PutPartial, MakeDir, Remove;
  }

  lemma MoverShelved(cfg: Config, w: World, m: Mover, o: Io)
    requires Shelved(w.stores)
    ensures Shelved(MoverStep(cfg, w, m, o).0.stores)
  {
    if m.Making? {
      MakeDirShelved(w, Resolve(w, m.mount), m.date);
    } else if m.Routed? && m.to.Some? && HasDir(w, Resolve(w, m.to.value), m.date) {
      var c := if m.target in w.ring then w.ring[m.target].content else [];
      PutsShelved(w, Resolve(w, m.to.value), Path(m.date, m.target), c, o);
    }
    hide Shelved, HasDir, Put, PutPartial, MakeDir, OldestFirst.Pick;
  }

  lemma TextsShelved(w: World, b: Batch, o: Io)
    requires Shelved(w.stores)
    ensures Shelved(WriteManifest(w, b, o).stores) && Shelved(AppendLog(w, b, o).stores)
  {
    if HasDir(w, Resolve(w, b.mount), b.date) {
      HasDirIs(w, Resolve(w, b.mount), b.date);
    }
    hide FirstLines, SortBy;
  }

  lemma StepShelved(cfg: Config, s: System, e: Event)
    requires Shelved(s.w.stores)
    ensures Shelved(Step(cfg, s, e).w.stores)
  {
    hide Shelved;
    if e.MoverDo? {
      MoverShelved(cfg, s.w, s.mover, e.m);
      hide MoverStep;
    } else if e.DaemonDo? {
      if s.daemon.Moving? {
        TransferShelved(cfg, s.w, JobOf(s.daemon.b), s.daemon.t, e.d);
      } else if s.daemon.Manifest? || s.daemon.Log? {
        TextsShelved(s.w, s.daemon.b, e.d);
      }
      hide TransferStep, WriteManifest, AppendLog, SortNames;
    }
  }

  /** Over every run, no file and no manifest is anywhere but in a dated directory that was made. */
  lemma {:induction false} NothingOutsideDirectories(cfg: Config, s: System, es: seq<Event>)
    requires Shelved(s.w.stores)
    ensures Shelved(Run(cfg, s, es).w.stores)
  {
    if es != [] {
      var k := |es| - 1;
      NothingOutsideDirectories(cfg, s, es[..k]);
      StepShelved(cfg, Run(cfg, s, es[..k]), es[k]);
      hide Shelved, Step;
    }
  }
}
