/** Copies of evacuated captures are final, and the manifests that list them stay true. */
module Manifests {
  import opened Hashing
  import opened Names
  import opened Files
  import opened Sorting
  import opened Pipeline
  import opened Frames
  import opened Order
  import opened Safety
  import OldestFirst

  // ---------------------------------------------------------------- evacuated captures

  /** A capture that has left both the ring and the backlog. */
  ghost predicate Evacuated(w: World, n: Name) {
    n in w.captured && n !in w.ring && n !in w.backlog
  }

  /** An evacuated capture stays evacuated, no copy of it changes or disappears, and no directory does. */
  ghost predicate CopiesFinal(w: World, w': World) {
    && DirsKept(w.stores, w'.stores)
    && (forall n :: Evacuated(w, n) ==> Evacuated(w', n))
    && (forall p: Place, path: Path, c: Content ::
          Evacuated(w, path.name) && At(w.stores, p, path, c) ==> At(w'.stores, p, path, c))
  }

  /** Everyone but the daemon also leaves the copies of files in the backlog, and those files, alone. */
  ghost predicate BacklogLeftAlone(w: World, w': World) {
    && (forall n :: n in w.backlog ==> n in w'.backlog && w'.backlog[n] == w.backlog[n])
    && (forall p: Place, path: Path, c: Content ::
          path.name in w.captured && path.name !in w.ring && At(w.stores, p, path, c) ==> At(w'.stores, p, path, c))
    && (forall p, d :: ManifestAt(w'.stores, p, d) == ManifestAt(w.stores, p, d))
  }

  /** The lines of a manifest; a missing one has none. */
  function ManifestAt(stores: map<Place, Store>, p: Place, d: Date): seq<Line> {
    if p in stores && d in stores[p].manifests then stores[p].manifests[d] else []
  }

  lemma CaptureFrame(cfg: Config, s: System, e: Event)
    requires Admissible(cfg, s, e) && !e.MoverDo? && !e.DaemonDo?
    ensures var w, w' := s.w, Step(cfg, s, e).w;
            && w'.stores == w.stores && w'.backlog == w.backlog && w.captured <= w'.captured
            && (forall n :: n in w.captured && n !in w.ring ==> n !in w'.ring)
  {
    if e.NewCapture? {
      RotateFrame(cfg, s.w, e.name);
    }
    hide Rotate;
  }

  lemma RotateFrame(cfg: Config, w: World, n: Name)
    requires n !in w.captured
    ensures var w' := Rotate(w, n);
            && w'.stores == w.stores && w'.backlog == w.backlog && w'.captured == w.captured + [n]
            && (forall x :: x in w.captured && x !in w.ring ==> x !in w'.ring)
  {
  }

  lemma CaptureLeavesCopies(cfg: Config, s: System, e: Event)
    requires Inv(cfg, s) && Admissible(cfg, s, e) && !e.MoverDo? && !e.DaemonDo?
    ensures var w' := Step(cfg, s, e).w; CopiesFinal(s.w, w') && BacklogLeftAlone(s.w, w')
  {
    CaptureFrame(cfg, s, e);
    hide Step, Inv, Admissible, At, ManifestAt;
  }

  lemma PutTouches(w: World, p: Place, path: Path, c: Content)
    ensures var w' := Put(w, p, path, c);
            && TouchesOnly(w.stores, w'.stores, path.name) && w'.backlog == w.backlog
            && forall q, d :: ManifestAt(w'.stores, q, d) == ManifestAt(w.stores, q, d)
  {
  }

  lemma MoveToDriveTouches(cfg: Config, w: World, n: Name, to: Mount, date: Date, o: Io)
    ensures var w' := MoverMove(cfg, w, n, Some(to), date, o).0;
            && TouchesOnly(w.stores, w'.stores, n) && w'.backlog == w.backlog
            && (forall p, d :: ManifestAt(w'.stores, p, d) == ManifestAt(w.stores, p, d))
  {
    if n in w.ring {
      var p, path := Resolve(w, to), Path(date, n);
      PutTouches(w, p, path, w.ring[n].content);
      PutTouches(w, p, path, if o.Wrote? then o.data else []);
      PutTouches(w, p, path, if Partial(o).Some? then Partial(o).value else []);
    }
    hide Put, Resolve, HasDir, At;
  }

  lemma MoverMoveTouches(cfg: Config, w: World, n: Name, to: Option<Mount>, date: Date, o: Io)
    ensures var w' := MoverMove(cfg, w, n, to, date, o).0;
            && TouchesOnly(w.stores, w'.stores, n)
            && (forall p, d :: ManifestAt(w'.stores, p, d) == ManifestAt(w.stores, p, d))
            && w'.backlog - {n} == w.backlog - {n}
  {
    if to.Some? {
      MoveToDriveTouches(cfg, w, n, to.value, date, o);
      hide MoverMove;
    } else {
      assert MoverMove(cfg, w, n, to, date, o).0.stores == w.stores;
    }
    hide At, ManifestAt;
  }

  lemma MoverLeavesCopies(cfg: Config, s: System, o: Io)
    requires Inv(cfg, s)
    ensures var w' := Step(cfg, s, MoverDo(o)).w; CopiesFinal(s.w, w') && BacklogLeftAlone(s.w, w')
  {
    var w, m := s.w, s.mover;
    var w' := Step(cfg, s, MoverDo(o)).w;
    MoverKeepsHistory(cfg, w, m, o);
    MoverTakesOnlyTarget(cfg, w, m, o);
    hide Ordered, StrictPart, AllKept, ClosedKnown, CopyOk, DaemonOk, At;
    if m.Routed? {
      MoverMoveTouches(cfg, w, m.target, m.to, m.date, o);
      assert m.target in w.ring;
      hide MoverMove, MoverStep, OldestFirst.Oldest;
      RingFileLeavesCopies(w, w', m.target);
    } else if m.Making? && o.Done? {
      MakeDirLeavesCopies(w, Resolve(w, m.mount), m.date);
    } else {
      assert w'.stores == w.stores && w'.backlog == w.backlog;
    }
  }

  lemma MakeDirLeavesCopies(w: World, p: Place, date: Date)
    ensures var w' := MakeDir(w, p, date); CopiesFinal(w, w') && BacklogLeftAlone(w, w')
  {
  }

  /** A step that touches only a file of the ring and its copies leaves evacuated captures and the backlog alone. */
  lemma RingFileLeavesCopies(w: World, w': World, n: Name)
    requires n in w.ring && BacklogKnown(w.captured, w.ring, w.backlog) && w'.captured == w.captured
    requires w'.ring == w.ring || w'.ring == w.ring - {n}
    requires TouchesOnly(w.stores, w'.stores, n) && w'.backlog - {n} == w.backlog - {n}
    requires forall p, d :: ManifestAt(w'.stores, p, d) == ManifestAt(w.stores, p, d)
    ensures CopiesFinal(w, w') && BacklogLeftAlone(w, w')
  {
    hide At, ManifestAt;
    forall x | x != n ensures (x in w.backlog <==> x in w'.backlog) && (x in w.backlog ==> w'.backlog[x] == w.backlog[x]) {
      assert x in w.backlog - {n} <==> x in w.backlog;
      assert x in w'.backlog - {n} <==> x in w'.backlog;
    }
  }

  lemma TransferLeavesManifests(cfg: Config, w: World, job: Job, t: Transfer, o: Io)
    ensures forall p, d :: ManifestAt(TransferStep(cfg, w, job, t, o).0.stores, p, d) == ManifestAt(w.stores, p, d)
  {
  }

  lemma TransferLeavesCopies(cfg: Config, s: System, b: Batch, t: Transfer, o: Io)
    requires Dependable(cfg) && Inv(cfg, s) && s.daemon == Moving(b, t) && !Returned(t)
    requires TransferOwed(cfg, s.w, JobOf(b), t, o)
    ensures CopiesFinal(s.w, TransferStep(cfg, s.w, JobOf(b), t, o).0)
  {
    TransferKeeps(cfg, s.w, JobOf(b), t, o);
    TransferKeepsHistory(cfg, s.w, JobOf(b), t, o);
    hide Ordered, StrictPart, Kept, MoverOk, CopyOk, At, TransferStep;
  }

  lemma DaemonLeavesCopies(cfg: Config, s: System, o: Io)
    requires Dependable(cfg) && Inv(cfg, s) && Admissible(cfg, s, DaemonDo(o))
    ensures CopiesFinal(s.w, Step(cfg, s, DaemonDo(o)).w)
  {
    hide OrderInv, Kept, CopyOk, TransferStep, TransferOwed;
    match s.daemon
    case Moving(b, t) =>
      if !Returned(t) {
        TransferLeavesCopies(cfg, s, b, t, o);
      }
    case _ =>
  }

  /** Every step leaves the copies of evacuated captures as they are. */
  lemma StepLeavesCopies(cfg: Config, s: System, e: Event)
    requires Dependable(cfg) && Inv(cfg, s) && Admissible(cfg, s, e)
    ensures CopiesFinal(s.w, Step(cfg, s, e).w)
    ensures !e.DaemonDo? ==> BacklogLeftAlone(s.w, Step(cfg, s, e).w)
  {
    if e.MoverDo? {
      MoverLeavesCopies(cfg, s, e.m);
    } else if e.DaemonDo? {
      DaemonLeavesCopies(cfg, s, e.d);
    } else {
      CaptureLeavesCopies(cfg, s, e);
    }
  }

  lemma FinalTransitive(w: World, w': World, w'': World)
    requires CopiesFinal(w, w') && CopiesFinal(w', w'')
    ensures CopiesFinal(w, w'')
  {
    hide At;
  }

  /** Over every run: once a capture has left the ring and the backlog it never comes back, and no copy of it
      on any volume is ever changed or removed again. */
  lemma {:induction false} EvacuatedCopiesAreFinal(cfg: Config, s: System, es: seq<Event>)
    requires Sane(cfg) && Inv(cfg, s) && AdmissibleRun(cfg, s, es)
    ensures CopiesFinal(s.w, Run(cfg, s, es).w)
  {
    if es != [] {
      SplitRun(cfg, s, es);
      SaneIsDependable(cfg);
      hide *;
      var k := |es| - 1;
      EvacuatedCopiesAreFinal(cfg, s, es[..k]);
      RunKeeps(cfg, s, es[..k]);
      StepLeavesCopies(cfg, Run(cfg, s, es[..k]), es[k]);
      FinalTransitive(s.w, Run(cfg, s, es[..k]).w, Run(cfg, s, es).w);
    }
  }

  // ---------------------------------------------------------------- true lines

  /** The line names an evacuated capture that is in this directory with this digest. */
  ghost predicate LineTrue(cfg: Config, w: World, p: Place, d: Date, line: Line) {
    && Evacuated(w, line.name)
    && exists c: Content :: At(w.stores, p, Path(d, line.name), c) && cfg.sha(c) == line.digest
  }

  ghost predicate LinesTrue(cfg: Config, w: World, p: Place, d: Date, lines: seq<Line>) {
    forall line :: line in lines ==> LineTrue(cfg, w, p, d, line)
  }

  ghost predicate ManifestsTrue(cfg: Config, w: World) {
    forall p, d :: LinesTrue(cfg, w, p, d, ManifestAt(w.stores, p, d))
  }

  lemma LinesSurvive(cfg: Config, w: World, w': World, p: Place, d: Date, lines: seq<Line>)
    requires CopiesFinal(w, w') && LinesTrue(cfg, w, p, d, lines)
    ensures LinesTrue(cfg, w', p, d, lines)
  {
    hide At, Evacuated;
    forall line | line in lines ensures LineTrue(cfg, w', p, d, line) {
      assert LineTrue(cfg, w, p, d, line);
      var c :| At(w.stores, p, Path(d, line.name), c) && cfg.sha(c) == line.digest;
      assert At(w'.stores, p, Path(d, line.name), c);
    }
  }

  // ---------------------------------------------------------------- during a batch

  ghost predicate InBatch(d: Daemon) {
    d.AtFile? || d.Moving? || d.Manifest?
  }

  /** Nobody attaches or detaches a volume at the mount point a batch is writing to. */
  ghost predicate SteadyEvent(s: System, e: Event) {
    InBatch(s.daemon) && (e.Attach? || e.Detach?) ==> e.at != s.daemon.b.mount
  }

  ghost predicate SteadyRun(cfg: Config, s: System, es: seq<Event>) {
    es != [] ==> SteadyRun(cfg, s, es[..|es| - 1]) && SteadyEvent(Run(cfg, s, es[..|es| - 1]), es[|es| - 1])
  }

  lemma SteadySplit(cfg: Config, s: System, es: seq<Event>)
    requires SteadyRun(cfg, s, es) && es != []
    ensures SteadyRun(cfg, s, es[..|es| - 1]) && SteadyEvent(Run(cfg, s, es[..|es| - 1]), es[|es| - 1])
  {
  }

  /** The move is for one device, the verified copy for two. */
  ghost predicate OnBranch(cfg: Config, p: Place, t: Transfer) {
    && (t.Move? || t.MoveUnlink? || t.HashMoved? || t.Renamed? || t.FailedAfterRename? ==> SameDevice(cfg, p))
    && (t.Copy? || t.HashSource? || t.HashCopy? || t.UnlinkCopy? || t.UnlinkSource? || t.Verified? ==> !SameDevice(cfg, p))
  }

  /** There is a copy whose digest is not that of the source. */
  ghost predicate BadCopyAt(cfg: Config, stores: map<Place, Store>, p: Place, path: Path, source: Content) {
    exists c :: At(stores, p, path, c) && cfg.sha(c) != cfg.sha(source)
  }

  /** On a steady mount, what transfer_file has read back is at the destination. */
  ghost predicate Delivered(cfg: Config, w: World, job: Job, t: Transfer) {
    var p := Resolve(w, job.mount);
    var path := Path(job.date, job.name);
    (t.Mkdir? || t.Failed? || HasDir(w, p, job.date)) && OnBranch(cfg, p, t) &&
    match t
    case UnlinkCopy =>
      job.name in w.backlog && BadCopyAt(cfg, w.stores, p, path, w.backlog[job.name].content)
    case MoveUnlink => job.name in w.backlog && At(w.stores, p, path, w.backlog[job.name].content)
    case UnlinkSource(_) => job.name in w.backlog && At(w.stores, p, path, w.backlog[job.name].content)
    case HashMoved => job.name in w.original && At(w.stores, p, path, w.original[job.name])
    case Renamed(sha) =>
      job.name in w.original && At(w.stores, p, path, w.original[job.name]) && sha == cfg.sha(w.original[job.name])
    case Verified(sha) =>
      job.name in w.original && At(w.stores, p, path, w.original[job.name]) && sha == cfg.sha(w.original[job.name])
    case FailedAfterRename => job.name in w.original && At(w.stores, p, path, w.original[job.name])
    case _ => true
  }

  ghost predicate BatchTrue(cfg: Config, w: World, d: Daemon) {
    InBatch(d) ==>
      && LinesTrue(cfg, w, Resolve(w, d.b.mount), d.b.date, d.b.transferred)
      && (d.b.transferred != [] ==> HasDir(w, Resolve(w, d.b.mount), d.b.date))
      && (d.Moving? ==> Delivered(cfg, w, JobOf(d.b), d.t))
  }

  ghost predicate Truthful(cfg: Config, s: System) {
    ManifestsTrue(cfg, s.w) && BatchTrue(cfg, s.w, s.daemon)
  }

  lemma MkdirDelivers(cfg: Config, w: World, job: Job, o: Io)
    ensures var (w', t') := TransferStep(cfg, w, job, Mkdir, o); Delivered(cfg, w', job, t')
  {
  }

  lemma PutIsAt(w: World, p: Place, path: Path, c: Content, date: Date)
    ensures var w' := Put(w, p, path, c);
            && At(w'.stores, p, path, c) && w' == w.(stores := w'.stores)
            && (HasDir(w, p, date) ==> HasDir(w', p, date))
  {
  }

  lemma MoveDelivers(cfg: Config, w: World, job: Job, o: Io)
    requires Dependable(cfg) && TransferInv(cfg, w, job.name, Move) && MoveCopiesExactly(cfg, w, job, Move, o)
    requires Delivered(cfg, w, job, Move)
    ensures var (w', t') := TransferStep(cfg, w, job, Move, o); Delivered(cfg, w', job, t')
  {
    BacklogIsClosed(w, job.name);
    var p, path := Resolve(w, job.mount), Path(job.date, job.name);
    PutIsAt(w, p, path, w.backlog[job.name].content, job.date);
    hide Ordered, Kept, Stored, Put, HasDir, At;
  }

  lemma UnlinkDelivers(cfg: Config, w: World, job: Job, t: Transfer, o: Io)
    requires TransferInv(cfg, w, job.name, t) && Delivered(cfg, w, job, t) && (t.MoveUnlink? || t.UnlinkSource?)
    ensures var (w', t') := TransferStep(cfg, w, job, t, o); Delivered(cfg, w', job, t')
  {
    BacklogIsClosed(w, job.name);
    hide Ordered, Kept, Stored;
  }

  lemma HashDelivers(cfg: Config, w: World, job: Job, t: Transfer, o: Io)
    requires TransferOk(cfg, w, job.name, t) && Delivered(cfg, w, job, t) && NoCollision(cfg, w, job, t)
    requires t.HashMoved? || t.HashCopy?
    ensures var (w', t') := TransferStep(cfg, w, job, t, o); Delivered(cfg, w', job, t')
  {
    hide Stored;
  }

  lemma TransferDelivers(cfg: Config, w: World, job: Job, t: Transfer, o: Io)
    requires Dependable(cfg) && TransferInv(cfg, w, job.name, t) && Delivered(cfg, w, job, t)
    requires TransferOwed(cfg, w, job, t, o)
    ensures var (w', t') := TransferStep(cfg, w, job, t, o); Delivered(cfg, w', job, t')
  {
    hide Ordered, Kept, TransferOk, NoCollision, MoveCopiesExactly;
    match t
    case Mkdir => MkdirDelivers(cfg, w, job, o);
    case Move => MoveDelivers(cfg, w, job, o);
    case MoveUnlink => UnlinkDelivers(cfg, w, job, t, o);
    case UnlinkSource(_) => UnlinkDelivers(cfg, w, job, t, o);
    case HashMoved => HashDelivers(cfg, w, job, t, o);
    case HashCopy(_) => HashDelivers(cfg, w, job, t, o);
    case _ => hide At;
  }

  lemma ManifestsSurvive(cfg: Config, w: World, w': World)
    requires CopiesFinal(w, w') && ManifestsTrue(cfg, w)
    requires forall p, d :: ManifestAt(w'.stores, p, d) == ManifestAt(w.stores, p, d)
    ensures ManifestsTrue(cfg, w')
  {
    hide CopiesFinal, LinesTrue;
    forall p, d ensures LinesTrue(cfg, w', p, d, ManifestAt(w'.stores, p, d)) {
      LinesSurvive(cfg, w, w', p, d, ManifestAt(w.stores, p, d));
    }
  }

  lemma DirSurvives(w: World, w': World, p: Place, date: Date)
    requires CopiesFinal(w, w') && HasDir(w, p, date)
    ensures HasDir(w', p, date)
  {
  }

  /** While others act, what a transfer has delivered stays delivered. */
  lemma DeliveredSurvives(cfg: Config, w: World, w': World, job: Job, t: Transfer)
    requires Delivered(cfg, w, job, t) && TransferOk(cfg, w, job.name, t)
    requires CopiesFinal(w, w') && BacklogLeftAlone(w, w') && BacklogKnown(w.captured, w.ring, w.backlog)
    requires Resolve(w', job.mount) == Resolve(w, job.mount)
    requires OriginalsKept(w, w') && ClosedKnown(w.captured, w.active, w.original)
    ensures Delivered(cfg, w', job, t)
  {
    if HasDir(w, Resolve(w, job.mount), job.date) {
      DirSurvives(w, w', Resolve(w, job.mount), job.date);
    }
    hide At, Stored, HasDir;
  }

  lemma OthersKeepTruth(cfg: Config, s: System, e: Event)
    requires Dependable(cfg) && Inv(cfg, s) && Admissible(cfg, s, e) && !e.DaemonDo?
    requires Truthful(cfg, s) && SteadyEvent(s, e)
    ensures Truthful(cfg, Step(cfg, s, e))
  {
    StepLeavesCopies(cfg, s, e);
    OriginalsFixedStep(cfg, s, e);
    if InBatch(s.daemon) {
      SteadyResolve(cfg, s, e);
    }
    var s' := Step(cfg, s, e);
    var w, w' := s.w, s'.w;
    assert s'.daemon == s.daemon || s'.daemon.Idle?;
    hide OrderInv, AllKept, CopyOk, Step, LinesTrue, CopiesFinal, OriginalsKept, Admissible;
    ManifestsSurvive(cfg, w, w');
    if InBatch(s'.daemon) {
      var b := s.daemon.b;
      LinesSurvive(cfg, w, w', Resolve(w, b.mount), b.date, b.transferred);
      if b.transferred != [] {
        DirSurvives(w, w', Resolve(w, b.mount), b.date);
      }
      hide HasDir;
      if s.daemon.Moving? {
        hide BacklogLeftAlone;
        DeliveredSurvives(cfg, w, w', JobOf(b), s.daemon.t);
      }
    }
  }

  lemma SteadyResolve(cfg: Config, s: System, e: Event)
    requires !e.DaemonDo? && SteadyEvent(s, e) && InBatch(s.daemon)
    ensures Resolve(Step(cfg, s, e).w, s.daemon.b.mount) == Resolve(s.w, s.daemon.b.mount)
  {
    if e.MoverDo? {
      MoverKeepsHistory(cfg, s.w, s.mover, e.m);
      hide MoverStep;
    }
  }

  // ---------------------------------------------------------------- the daemon's own steps

  lemma ByNameIsTotal()
    ensures TotalPreorder(ByName())
  {
    AscendingIsTotal();
    forall a: Line, b: Line ensures ByName()(a, b) || ByName()(b, a) {
      assert Ascending()(a.name, b.name) || Ascending()(b.name, a.name);
    }
    forall a: Line, b: Line, c: Line | ByName()(a, b) && ByName()(b, c) ensures ByName()(a, c) {
      assert Ascending()(a.name, b.name) && Ascending()(b.name, c.name);
      assert Ascending()(a.name, c.name);
    }
  }

  lemma WrittenLines(lines: seq<Line>, o: Io)
    ensures forall line :: line in FirstLines(SortBy(ByName(), lines), o) ==> line in lines
  {
    var sorted := SortBy(ByName(), lines);
    forall line | line in FirstLines(sorted, o) ensures line in lines {
      ByNameIsTotal();
      SortSameMembers(ByName(), lines, line);
      assert line in sorted;
    }
  }

  /** What a write makes of the manifests: one of them becomes the sorted lines, or the first of them, or nothing
      changes. */
  lemma WriteFrame(w: World, b: Batch, o: Io, p: Place, d: Date)
    ensures var w' := WriteManifest(w, b, o);
            && CopiesFinal(w, w')
            && (|| ManifestAt(w'.stores, p, d) == ManifestAt(w.stores, p, d)
                || (p == Resolve(w, b.mount) && d == b.date
                    && ManifestAt(w'.stores, p, d) == FirstLines(SortBy(ByName(), b.transferred), o)))
  {
    hide SortBy, FirstLines;
  }

  lemma WriteKeepsTruth(cfg: Config, w: World, b: Batch, o: Io)
    requires ManifestsTrue(cfg, w) && LinesTrue(cfg, w, Resolve(w, b.mount), b.date, b.transferred)
    ensures ManifestsTrue(cfg, WriteManifest(w, b, o))
  {
    hide CopiesFinal, WriteManifest, ManifestAt, LineTrue, FirstLines;
    var w' := WriteManifest(w, b, o);
    forall p, d ensures LinesTrue(cfg, w', p, d, ManifestAt(w'.stores, p, d)) {
      WriteFrame(w, b, o, p, d);
      if ManifestAt(w'.stores, p, d) == ManifestAt(w.stores, p, d) {
        LinesSurvive(cfg, w, w', p, d, ManifestAt(w.stores, p, d));
      } else {
        LinesSurvive(cfg, w, w', p, d, b.transferred);
        WrittenLines(b.transferred, o);
      }
    }
  }

  lemma SettleKeepsTruth(cfg: Config, w: World, b: Batch, t: Transfer)
    requires BatchTrue(cfg, w, Moving(b, t)) && Returned(t) && b.next < |b.listing|
    requires TransferOk(cfg, w, b.listing[b.next], t) && ClosedKnown(w.captured, w.active, w.original)
    ensures BatchTrue(cfg, w, Continue(Settle(w, b, t)))
  {
    hide At;
    var b' := Settle(w, b, t);
    var n := b.listing[b.next];
    forall line | line in b'.transferred ensures LineTrue(cfg, w, Resolve(w, b.mount), b.date, line) {
      if line !in b.transferred {
        assert line == Line(n, t.sha);
        assert At(w.stores, Resolve(w, b.mount), Path(b.date, n), w.original[n]);
      }
    }
  }

  /** A batch stays true over a call that changes no manifest and no mount. */
  lemma BatchStaysTrue(cfg: Config, w: World, w': World, b: Batch, t: Transfer, t': Transfer)
    requires ManifestsTrue(cfg, w) && BatchTrue(cfg, w, Moving(b, t)) && CopiesFinal(w, w') && w'.mounts == w.mounts
    requires forall p, d :: ManifestAt(w'.stores, p, d) == ManifestAt(w.stores, p, d)
    requires Delivered(cfg, w', JobOf(b), t')
    ensures ManifestsTrue(cfg, w') && BatchTrue(cfg, w', Moving(b, t'))
  {
    hide CopiesFinal, LinesTrue, Delivered, ManifestAt, HasDir;
    ManifestsSurvive(cfg, w, w');
    LinesSurvive(cfg, w, w', Resolve(w, b.mount), b.date, b.transferred);
    if b.transferred != [] {
      DirSurvives(w, w', Resolve(w, b.mount), b.date);
    }
  }

  lemma TransferKeepsTruth(cfg: Config, s: System, b: Batch, t: Transfer, o: Io)
    requires Dependable(cfg) && Inv(cfg, s) && s.daemon == Moving(b, t) && !Returned(t)
    requires TransferOwed(cfg, s.w, JobOf(b), t, o)
    requires Truthful(cfg, s)
    ensures Truthful(cfg, Step(cfg, s, DaemonDo(o)))
  {
    var w, job := s.w, JobOf(b);
    MovingIsGood(cfg, s, b, t);
    MovingStep(cfg, s, b, t, o);
    hide TransferStep, CopiesFinal, BatchTrue, ManifestsTrue, Delivered, Inv, TransferOwed, ManifestAt, Step, TransferInv;
    TransferLeavesCopies(cfg, s, b, t, o);
    TransferLeavesManifests(cfg, w, job, t, o);
    TransferKeepsHistory(cfg, w, job, t, o);
    TransferDelivers(cfg, w, job, t, o);
    var (w', t') := TransferStep(cfg, w, job, t, o);
    BatchStaysTrue(cfg, w, w', b, t, t');
  }

  lemma MovingIsGood(cfg: Config, s: System, b: Batch, t: Transfer)
    requires Inv(cfg, s) && s.daemon == Moving(b, t) && BatchTrue(cfg, s.w, s.daemon)
    ensures b.next < |b.listing| && TransferInv(cfg, s.w, JobOf(b).name, t) && Delivered(cfg, s.w, JobOf(b), t)
  {
    hide Ordered, Kept, CopyOk, LinesTrue, Delivered, Stored;
  }

  lemma MovingStep(cfg: Config, s: System, b: Batch, t: Transfer, o: Io)
    requires s.daemon == Moving(b, t) && b.next < |b.listing| && !Returned(t)
    ensures var (w', t') := TransferStep(cfg, s.w, JobOf(b), t, o);
            Step(cfg, s, DaemonDo(o)) == System(w', s.mover, Moving(b, t'))
  {
    hide TransferStep;
  }

  lemma DaemonKeepsTruth(cfg: Config, s: System, o: Io)
    requires Dependable(cfg) && Inv(cfg, s) && Admissible(cfg, s, DaemonDo(o)) && Truthful(cfg, s)
    ensures Truthful(cfg, Step(cfg, s, DaemonDo(o)))
  {
    hide Inv, Truthful, Step, TransferOwed, IsListing;
    if s.daemon.Moving? {
      if Returned(s.daemon.t) {
        ReturnKeepsTruth(cfg, s, s.daemon.b, s.daemon.t, o);
      } else {
        TransferKeepsTruth(cfg, s, s.daemon.b, s.daemon.t, o);
      }
    } else if s.daemon.Manifest? || s.daemon.Log? {
      TextKeepsTruth(cfg, s, o);
    } else {
      OffTransferKeepsTruth(cfg, s, o);
    }
  }

  lemma OffTransferKeepsTruth(cfg: Config, s: System, o: Io)
    requires Truthful(cfg, s) && !s.daemon.Moving? && !s.daemon.Manifest? && !s.daemon.Log?
    ensures Truthful(cfg, Step(cfg, s, DaemonDo(o)))
  {
    hide LineTrue, ManifestsTrue, HasDir, SortNames;
  }

  lemma ReturnKeepsTruth(cfg: Config, s: System, b: Batch, t: Transfer, o: Io)
    requires Inv(cfg, s) && s.daemon == Moving(b, t) && Returned(t) && Truthful(cfg, s)
    ensures Truthful(cfg, Step(cfg, s, DaemonDo(o)))
  {
    hide OrderInv, AllKept, BacklogKnown, CopyOk, LinesTrue, ManifestsTrue, HasDir, TransferOk, TransferStep, Settle;
    SettleKeepsTruth(cfg, s.w, b, t);
  }

  lemma TextKeepsTruth(cfg: Config, s: System, o: Io)
    requires Truthful(cfg, s) && (s.daemon.Manifest? || s.daemon.Log?)
    ensures Truthful(cfg, Step(cfg, s, DaemonDo(o)))
  {
    var b := s.daemon.b;
    if s.daemon.Manifest? {
      WriteKeepsTruth(cfg, s.w, b, o);
      hide LinesTrue, ManifestsTrue, HasDir;
    } else {
      var w' := AppendLog(s.w, b, o);
      assert CopiesFinal(s.w, w') && forall p, d :: ManifestAt(w'.stores, p, d) == ManifestAt(s.w.stores, p, d);
      hide CopiesFinal, LinesTrue, ManifestsTrue, AppendLog;
      ManifestsSurvive(cfg, s.w, w');
    }
  }

  /** Over every run in which no volume is swapped at the mount point of a running batch, every line of every
      manifest on every volume names a capture that is in that directory with that digest. */
  lemma {:induction false} ManifestsStayTrue(cfg: Config, s: System, es: seq<Event>)
    requires Sane(cfg) && Inv(cfg, s) && Truthful(cfg, s)
    requires AdmissibleRun(cfg, s, es) && SteadyRun(cfg, s, es)
    ensures Truthful(cfg, Run(cfg, s, es))
  {
    hide *;
    if es == [] {
      RunNil(cfg, s);
    } else {
      SplitRun(cfg, s, es);
      SteadySplit(cfg, s, es);
      SaneIsDependable(cfg);
      var k := |es| - 1;
      ManifestsStayTrue(cfg, s, es[..k]);
      RunKeeps(cfg, s, es[..k]);
      StepKeepsTruth(cfg, Run(cfg, s, es[..k]), es[k]);
    }
  }

  lemma StepKeepsTruth(cfg: Config, s: System, e: Event)
    requires Dependable(cfg) && Inv(cfg, s) && Admissible(cfg, s, e) && Truthful(cfg, s) && SteadyEvent(s, e)
    ensures Truthful(cfg, Step(cfg, s, e))
  {
    hide *;
    if e.DaemonDo? {
      DaemonKeepsTruth(cfg, s, e.d);
    } else {
      OthersKeepTruth(cfg, s, e);
    }
  }
}
