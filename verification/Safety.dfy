/** What every step of the pipeline keeps besides the order of the ring: the content of every closed capture is
    held somewhere, and whatever is about to be deleted has a copy. */
module Safety {
  import opened Hashing
  import opened Names
  import opened Files
  import opened Pipeline
  import opened Frames
  import opened Order
  import OldestFirst

  // ---------------------------------------------------------------- copies below a drive root

  ghost predicate At(stores: map<Place, Store>, p: Place, path: Path, c: Content) {
    p in stores && path in stores[p].files && stores[p].files[path] == c
  }

  /** What is seen at a mount point: the volume that is mounted there, or the directory underneath. */
  ghost predicate AtMount(w: World, m: Mount, path: Path, c: Content) {
    if m in w.mounts then At(w.stores, Volume(w.mounts[m]), path, c) else At(w.stores, Bare(m), path, c)
  }

  /** Some volume, or the directory underneath a mount point, holds file `n` with content `c`. */
  ghost predicate Stored(stores: map<Place, Store>, n: Name, c: Content) {
    exists p: Place, d: Date :: At(stores, p, Path(d, n), c)
  }

  /** No directory disappears. */
  ghost predicate DirsKept(stores: map<Place, Store>, stores': map<Place, Store>) {
    forall p :: p in stores ==> p in stores' && stores[p].dirs <= stores'[p].dirs
  }

  /** Nothing that any store holds under a name other than `n` changes. */
  ghost predicate TouchesOnly(stores: map<Place, Store>, stores': map<Place, Store>, n: Name) {
    && DirsKept(stores, stores')
    && forall p: Place, path: Path, c: Content :: path.name != n && At(stores, p, path, c) ==> At(stores', p, path, c)
  }

  lemma PutTouchesOnly(w: World, p: Place, path: Path, data: Content)
    ensures TouchesOnly(w.stores, Put(w, p, path, data).stores, path.name)
    ensures Stored(Put(w, p, path, data).stores, path.name, data)
  {
    assert At(Put(w, p, path, data).stores, p, Path(path.date, path.name), data);
  }

  lemma PutPartialTouchesOnly(w: World, p: Place, path: Path, partial: Option<Content>)
    ensures TouchesOnly(w.stores, PutPartial(w, p, path, partial).stores, path.name)
  {
    if partial.Some? {
      PutTouchesOnly(w, p, path, partial.value);
    }
  }

  lemma MakeDirTouchesNothing(w: World, p: Place, date: Date)
    ensures DirsKept(w.stores, MakeDir(w, p, date).stores)
    ensures forall q: Place, path: Path, c: Content ::
              At(w.stores, q, path, c) ==> At(MakeDir(w, p, date).stores, q, path, c)
  {
  }

  lemma RemoveTouchesOnly(w: World, p: Place, path: Path)
    ensures TouchesOnly(w.stores, Remove(w, p, path).stores, path.name)
  {
  }

  lemma StoredSurvives(w: World, w': World, n: Name, x: Name, c: Content)
    requires TouchesOnly(w.stores, w'.stores, n) && x != n && Stored(w.stores, x, c)
    ensures Stored(w'.stores, x, c)
  {
    var p: Place, d: Date :| At(w.stores, p, Path(d, x), c);
    assert At(w'.stores, p, Path(d, x), c);
  }

  // ---------------------------------------------------------------- the invariant

  /** Where the content of a closed capture is to be found. */
  ghost predicate KeptOne(ring: Directory, backlog: Directory, stores: map<Place, Store>, n: Name, c: Content) {
    && (n in ring ==> ring[n].content == c)
    && (n in backlog ==> backlog[n].content == c)
    && (n !in ring && n !in backlog ==> Stored(stores, n, c))
  }

  ghost predicate AllKept(w: World) {
    forall n :: n in w.original ==> KeptOne(w.ring, w.backlog, w.stores, n, w.original[n])
  }

  ghost predicate BacklogKnown(captured: seq<Name>, ring: Directory, backlog: Directory) {
    forall n :: n in backlog ==> n in captured && n !in ring
  }

  /** The closed captures are all captures but the one being written. */
  ghost predicate ClosedKnown(captured: seq<Name>, active: Option<Name>, original: map<Name, Content>) {
    forall n :: n in original <==> n in captured && active != Some(n)
  }

  ghost predicate Kept(w: World) {
    BacklogKnown(w.captured, w.ring, w.backlog) && ClosedKnown(w.captured, w.active, w.original) && AllKept(w)
  }

  /** A file that the mover has copied is stored. */
  ghost predicate CopyOk(w: World, m: Mover) {
    m.Copied? ==> m.target in w.ring && Stored(w.stores, m.target, w.ring[m.target].content)
  }

  ghost predicate Pending(w: World, b: Batch, from: nat) {
    && StrictlySorted(b.listing)
    && forall i :: from <= i < |b.listing| ==> b.listing[i] in w.backlog
  }

  /** What holds of the file under transfer before each system call of transfer_file and at each return. */
  ghost predicate TransferOk(cfg: Config, w: World, n: Name, t: Transfer) {
    match t
    case Move => n in w.backlog && cfg.bareLocal
    case MoveUnlink => n in w.backlog && Stored(w.stores, n, w.backlog[n].content)
    case HashCopy(source) => n in w.backlog && source == cfg.sha(w.backlog[n].content)
    case UnlinkSource(source) =>
      n in w.backlog && source == cfg.sha(w.backlog[n].content) && Stored(w.stores, n, w.backlog[n].content)
    case HashMoved => n in w.original && n !in w.backlog && n !in w.ring
    case Renamed(_) => n in w.original && n !in w.backlog && n !in w.ring
    case FailedAfterRename => n in w.original && n !in w.backlog && n !in w.ring
    case Verified(sha) => n in w.original && n !in w.backlog && n !in w.ring && sha == cfg.sha(w.original[n])
    case _ => n in w.backlog
  }

  ghost predicate DaemonOk(cfg: Config, w: World, d: Daemon) {
    match d
    case AtFile(b) => b.next < |b.listing| && Pending(w, b, b.next)
    case Moving(b, t) =>
      b.next < |b.listing| && Pending(w, b, b.next + 1) && TransferOk(cfg, w, b.listing[b.next], t)
    case _ => true
  }

  ghost predicate Inv(cfg: Config, s: System) {
    OrderInv(cfg, s) && Kept(s.w) && CopyOk(s.w, s.mover) && DaemonOk(cfg, s.w, s.daemon)
  }

  /** Nothing is deleted on the strength of a copy that may be wrong: moves to the backlog are renames, the
      mover's copies are exact, and so are those of the daemon's shutil.move, if it can come to one. */
  ghost predicate Dependable(cfg: Config) {
    cfg.sharedDevice && cfg.moverRenames && cfg.moverExact && (cfg.moveExact || !cfg.bareLocal)
  }

  ghost predicate Sane(cfg: Config) {
    Cautious(cfg) && Dependable(cfg)
  }

  // ---------------------------------------------------------------- capture steps

  lemma BacklogIsClosed(w: World, n: Name)
    requires Ordered(w) && Kept(w) && n in w.backlog
    ensures n in w.original && w.backlog[n].content == w.original[n] && n !in w.ring
  {
    hide NewestPart, RingKnown, OthersQuiet, Distinct, Stored;
    assert KeptOne(w.ring, w.backlog, w.stores, n, w.original[n]);
  }

  /** What a capture held when it was closed is fixed from then on. */
  ghost predicate OriginalsKept(w: World, w': World) {
    forall n :: n in w.original ==> n in w'.original && w'.original[n] == w.original[n]
  }

  lemma CaptureLeavesRest(cfg: Config, w: World, w': World, m: Mover, d: Daemon)
    requires CaptureStep(w, w') && OriginalsKept(w, w') && ClosedKnown(w.captured, w.active, w.original)
    requires MoverOk(cfg, w, m) && CopyOk(w, m) && DaemonOk(cfg, w, d)
    ensures CopyOk(w', m) && DaemonOk(cfg, w', d)
  {
    hide Stored;
  }

  lemma WriteKept(w: World, data: Content)
    requires Ordered(w) && Kept(w)
    ensures Kept(Write(w, data))
  {
    hide Stored, Ordered;
    var w' := Write(w, data);
    forall n | n in w'.original ensures KeptOne(w'.ring, w'.backlog, w'.stores, n, w'.original[n]) {
      assert KeptOne(w.ring, w.backlog, w.stores, n, w.original[n]);
    }
  }

  lemma CloseKept(w: World)
    requires Ordered(w) && Kept(w)
    ensures Kept(CloseActive(w)) && OriginalsKept(w, CloseActive(w))
  {
    var w' := CloseActive(w);
    if w.active.Some? {
      ActiveCaptured(w);
    }
    hide Stored, Ordered, AllKept;
    assert ClosedKnown(w'.captured, w'.active, w'.original);
    assert BacklogKnown(w'.captured, w'.ring, w'.backlog);
    CloseAllKept(w);
  }

  lemma ActiveCaptured(w: World)
    requires Ordered(w) && w.active.Some?
    ensures w.active.value in w.captured && w.active.value in w.ring
  {
  }

  lemma CloseAllKept(w: World)
    requires Ordered(w) && Kept(w)
    ensures AllKept(CloseActive(w))
  {
    if w.active.Some? {
      ActiveCaptured(w);
    }
    hide Ordered, Stored, ClosedKnown;
    var w' := CloseActive(w);
    forall n | n in w'.original ensures KeptOne(w'.ring, w'.backlog, w'.stores, n, w'.original[n]) {
      if w.active != Some(n) {
        assert KeptOne(w.ring, w.backlog, w.stores, n, w.original[n]);
      }
    }
  }

  lemma RotateKept(w: World, n: Name)
    requires Kept(w) && n !in w.captured && w.active == None
    ensures Kept(Rotate(w, n)) && OriginalsKept(w, Rotate(w, n))
  {
    hide Stored;
    var w' := Rotate(w, n);
    forall x | x in w'.original ensures KeptOne(w'.ring, w'.backlog, w'.stores, x, w'.original[x]) {
      assert KeptOne(w.ring, w.backlog, w.stores, x, w.original[x]);
    }
  }

  lemma WriteKeeps(cfg: Config, s: System, data: Content)
    requires Inv(cfg, s)
    ensures Inv(cfg, s.(w := Write(s.w, data)))
  {
    var w, w' := s.w, Write(s.w, data);
    CaptureKeepsOrder(cfg, s, Packets(data));
    WriteKept(w, data);
    WriteIsCaptureStep(w, data);
    hide Ordered, AllKept, BacklogKnown, CaptureStep, MoverOk;
    CaptureLeavesRest(cfg, w, w', s.mover, s.daemon);
  }

  lemma CloseKeeps(cfg: Config, s: System)
    requires Inv(cfg, s)
    ensures Inv(cfg, s.(w := CloseActive(s.w)))
  {
    var w, w' := s.w, CloseActive(s.w);
    CaptureKeepsOrder(cfg, s, StopCapture);
    CloseKept(w);
    CloseOrdered(w);
    hide Ordered, AllKept, BacklogKnown, CaptureStep, MoverOk, OriginalsKept;
    CaptureLeavesRest(cfg, w, w', s.mover, s.daemon);
  }

  lemma RotateKeeps(cfg: Config, s: System, n: Name)
    requires Inv(cfg, s) && FreshCapture(cfg, s.w, n)
    ensures Inv(cfg, s.(w := Rotate(s.w, n)))
  {
    CloseKeeps(cfg, s);
    CaptureKeepsOrder(cfg, s, NewCapture(n));
    var w, w' := CloseActive(s.w), Rotate(s.w, n);
    RotateKept(w, n);
    assert Rotate(w, n) == w';
    RotateOrdered(cfg, w, n);
    hide CaptureStep, Ordered, AllKept, BacklogKnown, MoverOk, OriginalsKept;
    CaptureLeavesRest(cfg, w, w', s.mover, s.daemon);
  }

  lemma ClockAndMountsKeep(cfg: Config, s: System, clock: int, mounts: map<Mount, nat>)
    requires Inv(cfg, s) && clock >= s.w.clock
    ensures Inv(cfg, s.(w := s.w.(clock := clock, mounts := mounts)))
  {
    ClockAndMountsKeepOrder(cfg, s, clock, mounts);
    hide OrderInv, Stored;
    var w, w' := s.w, s.w.(clock := clock, mounts := mounts);
    forall n | n in w'.original ensures KeptOne(w'.ring, w'.backlog, w'.stores, n, w'.original[n]) {
      assert KeptOne(w.ring, w.backlog, w.stores, n, w.original[n]);
    }
  }

  // ---------------------------------------------------------------- mover steps

  lemma RingIsCaptured(w: World, n: Name)
    requires Ordered(w) && n in w.ring
    ensures n in w.captured
  {
  }

  /** A step that concerns `n` alone keeps every capture if it keeps `n`. */
  lemma OthersKept(w: World, w': World, n: Name)
    requires AllKept(w) && TouchesOnly(w.stores, w'.stores, n) && w'.original == w.original
    requires w'.ring == w.ring || w'.ring == w.ring - {n}
    requires w'.backlog in {w.backlog, w.backlog - {n}} || (n in w.ring && w'.backlog == w.backlog[n := w.ring[n]])
    requires n in w.original && KeptOne(w'.ring, w'.backlog, w'.stores, n, w.original[n])
    ensures AllKept(w')
  {
    hide Stored, TouchesOnly;
    forall x | x in w'.original ensures KeptOne(w'.ring, w'.backlog, w'.stores, x, w'.original[x]) {
      assert KeptOne(w.ring, w.backlog, w.stores, x, w.original[x]);
      if x != n && x !in w.ring && x !in w.backlog {
        StoredSurvives(w, w', n, x, w.original[x]);
      }
    }
  }

  lemma BacklogGains(captured: seq<Name>, ring: Directory, backlog: Directory, n: Name, f: File)
    requires BacklogKnown(captured, ring, backlog) && n in captured
    ensures BacklogKnown(captured, ring - {n}, backlog) && BacklogKnown(captured, ring - {n}, backlog[n := f])
  {
  }

  /** Taking a closed file from the ring loses nothing if it goes to the backlog or a copy is stored. */
  lemma RemoveKeeps(w: World, w': World, n: Name)
    requires Ordered(w) && Kept(w) && n in w.ring && w.active != Some(n)
    requires w' == w.(ring := w.ring - {n}, backlog := w'.backlog, stores := w'.stores)
    requires w'.backlog == w.backlog || w'.backlog == w.backlog[n := w.ring[n]]
    requires TouchesOnly(w.stores, w'.stores, n)
    requires w'.backlog == w.backlog[n := w.ring[n]] || Stored(w'.stores, n, w.ring[n].content)
    ensures Kept(w')
  {
    RingIsCaptured(w, n);
    hide Ordered, Stored, TouchesOnly;
    BacklogGains(w.captured, w.ring, w.backlog, n, w.ring[n]);
    assert KeptOne(w.ring, w.backlog, w.stores, n, w.original[n]) && n !in w.backlog;
    hide ClosedKnown, BacklogKnown;
    OthersKept(w, w', n);
  }

  /** A change to copies of `n` alone disturbs nothing while `n` is still in the ring or the backlog. */
  lemma CopyKeeps(w: World, w': World, n: Name)
    requires Ordered(w) && Kept(w) && ((n in w.ring && w.active != Some(n)) || n in w.backlog)
    requires w' == w.(stores := w'.stores) && TouchesOnly(w.stores, w'.stores, n)
    ensures Ordered(w') && Kept(w')
  {
    if n in w.ring {
      RingIsCaptured(w, n);
    } else {
      BacklogIsClosed(w, n);
    }
    hide NewestPart, RingKnown, OthersQuiet, BacklogClosed, Distinct, Stored;
    assert KeptOne(w.ring, w.backlog, w.stores, n, w.original[n]);
    OthersKept(w, w', n);
  }

  /** The daemon's position stays valid when only copies of `n`, a file of the ring, and the ring change. */
  lemma DaemonUndisturbed(cfg: Config, w: World, w': World, d: Daemon, n: Name)
    requires Kept(w) && DaemonOk(cfg, w, d) && n in w.ring
    requires w' == w.(ring := w'.ring, backlog := w'.backlog, stores := w'.stores)
    requires w'.ring == w.ring || w'.ring == w.ring - {n}
    requires w'.backlog == w.backlog || w'.backlog == w.backlog[n := w.ring[n]]
    requires TouchesOnly(w.stores, w'.stores, n)
    ensures DaemonOk(cfg, w', d)
  {
    hide Stored, TouchesOnly, AllKept, ClosedKnown;
    if d.Moving? {
      var x := d.b.listing[d.b.next];
      if (d.t.MoveUnlink? || d.t.UnlinkSource?) {
        assert x in w.backlog && x != n;
        StoredSurvives(w, w', n, x, w.backlog[x].content);
      }
    }
  }

  lemma MoverMoveKeeps(cfg: Config, s: System, n: Name, to: Option<Mount>, date: Date, o: Io)
    requires Dependable(cfg) && Inv(cfg, s) && s.mover == Routed(n, to, date) && MoverOwed(cfg, s.w, s.mover, o)
    ensures var (w, m) := MoverMove(cfg, s.w, n, to, date, o); Kept(w) && CopyOk(w, m) && DaemonOk(cfg, w, s.daemon)
  {
    var w := s.w;
    var (w', m') := MoverMove(cfg, w, n, to, date, o);
    hide Ordered, Kept, DaemonOk, Stored;
    if to.None? {
      if o.Done? {
        RemoveKeeps(w, w', n);
        DaemonUndisturbed(cfg, w, w', s.daemon, n);
      }
    } else {
      var place, path := Resolve(w, to.value), Path(date, n);
      PutTouchesOnly(w, place, path, w.ring[n].content);
      PutPartialTouchesOnly(w, place, path, Partial(o));
      DaemonUndisturbed(cfg, w, w', s.daemon, n);
      if o.Done? && SameDevice(cfg, place) && HasDir(w, place, date) {
        RemoveKeeps(w, w', n);
      } else {
        CopyKeeps(w, w', n);
      }
    }
  }

  /** A new directory changes no file. */
  lemma MakeDirKeeps(cfg: Config, w: World, p: Place, date: Date, d: Daemon)
    requires Kept(w) && DaemonOk(cfg, w, d)
    ensures Kept(MakeDir(w, p, date)) && DaemonOk(cfg, MakeDir(w, p, date), d)
  {
    var w' := MakeDir(w, p, date);
    MakeDirTouchesNothing(w, p, date);
    TextKeeps(w, w', Asleep);
    hide MakeDir, Kept, DirsKept;
    forall n, c | Stored(w.stores, n, c) ensures Stored(w'.stores, n, c) {
      var q: Place, day: Date :| At(w.stores, q, Path(day, n), c);
      assert At(w'.stores, q, Path(day, n), c);
    }
    assert w' == w.(stores := w'.stores) by {
      MakeDirFrame(w, p, date);
    }
    hide Stored;
  }

  lemma MakeDirFrame(w: World, p: Place, date: Date)
    ensures MakeDir(w, p, date) == w.(stores := MakeDir(w, p, date).stores)
  {
  }

  lemma MoverKeeps(cfg: Config, s: System, o: Io)
    requires Dependable(cfg) && Inv(cfg, s) && Admissible(cfg, s, MoverDo(o))
    ensures var s' := Step(cfg, s, MoverDo(o)); Kept(s'.w) && CopyOk(s'.w, s'.mover) && DaemonOk(cfg, s'.w, s'.daemon)
  {
    var w := s.w;
    hide Ordered, Kept, DaemonOk, Stored, MoverMove, OldestFirst.Pick;
    match s.mover
    case Making(n, mount, date) =>
      if o.Done? {
        MakeDirKeeps(cfg, w, Resolve(w, mount), date, s.daemon);
      }
    case Routed(n, to, date) => MoverMoveKeeps(cfg, s, n, to, date, o);
    case Copied(n, _, _) =>
      var w' := w.(ring := w.ring - {n});
      RemoveKeeps(w, w', n);
      DaemonUndisturbed(cfg, w, w', s.daemon, n);
    case _ =>
  }

  // ---------------------------------------------------------------- daemon steps

  /** A copy by the mover stays in store when only copies of `n`, a file of the backlog, and `n` itself change. */
  lemma MoverUndisturbed(w: World, w': World, m: Mover, n: Name)
    requires Kept(w) && CopyOk(w, m) && n in w.backlog
    requires w' == w.(backlog := w'.backlog, stores := w'.stores) && TouchesOnly(w.stores, w'.stores, n)
    ensures CopyOk(w', m)
  {
    if m.Copied? {
      StoredSurvives(w, w', n, m.target, w.ring[m.target].content);
    }
  }

  /** Unlinking a file of the backlog is safe once a copy of its content is stored. */
  lemma UnlinkKeeps(w: World, w': World, n: Name)
    requires Ordered(w) && Kept(w) && n in w.backlog
    requires w' == w.(backlog := w.backlog - {n}, stores := w'.stores)
    requires TouchesOnly(w.stores, w'.stores, n) && Stored(w'.stores, n, w.backlog[n].content)
    ensures Ordered(w') && Kept(w')
  {
    BacklogIsClosed(w, n);
    UnlinkOrdered(w, w', n);
    hide Ordered, Stored, TouchesOnly, ClosedKnown;
    OthersKept(w, w', n);
  }

  lemma UnlinkOrdered(w: World, w': World, n: Name)
    requires Ordered(w) && w' == w.(backlog := w.backlog - {n}, stores := w'.stores)
    ensures Ordered(w')
  {
    hide NewestPart, RingKnown, OthersQuiet, Distinct;
  }

  /** The invariant, for a world and the file under transfer. */
  ghost predicate TransferInv(cfg: Config, w: World, n: Name, t: Transfer) {
    Ordered(w) && Kept(w) && TransferOk(cfg, w, n, t)
  }

  /** The guard for one transfer step: nothing else is touched, and the source stays unless this call unlinks it. */
  ghost predicate TransferFrame(w: World, w': World, n: Name) {
    && w' == w.(backlog := w'.backlog, stores := w'.stores)
    && (w'.backlog == w.backlog || w'.backlog == w.backlog - {n})
    && TouchesOnly(w.stores, w'.stores, n)
    && (n !in w.backlog ==> w' == w)
  }

  lemma MoveKeeps(cfg: Config, w: World, job: Job, o: Io)
    requires Dependable(cfg) && TransferInv(cfg, w, job.name, Move) && MoveCopiesExactly(cfg, w, job, Move, o)
    ensures var (w', t') := TransferStep(cfg, w, job, Move, o);
            TransferInv(cfg, w', job.name, t') && TransferFrame(w, w', job.name)
  {
    var place, path := Resolve(w, job.mount), Path(job.date, job.name);
    BacklogIsClosed(w, job.name);
    var c := w.backlog[job.name].content;
    PutTouchesOnly(w, place, path, c);
    PutPartialTouchesOnly(w, place, path, Partial(o));
    var (w', t') := TransferStep(cfg, w, job, Move, o);
    if SameDevice(cfg, place) && o.Done? && HasDir(w, place, job.date) {
      UnlinkKeeps(w, w', job.name);
    } else {
      CopyKeeps(w, w', job.name);
    }
  }

  lemma CopyCallKeeps(cfg: Config, w: World, job: Job, o: Io)
    requires TransferInv(cfg, w, job.name, Copy)
    ensures var (w', t') := TransferStep(cfg, w, job, Copy, o);
            TransferInv(cfg, w', job.name, t') && TransferFrame(w, w', job.name)
  {
    hide Ordered, Kept, Stored;
    var place, path := Resolve(w, job.mount), Path(job.date, job.name);
    var (w', t') := TransferStep(cfg, w, job, Copy, o);
    if o.Wrote? {
      PutTouchesOnly(w, place, path, o.data);
    }
    PutPartialTouchesOnly(w, place, path, Partial(o));
    CopyKeeps(w, w', job.name);
  }

  /** Both calls that unlink a source do so with a stored copy in hand. */
  lemma UnlinkCallKeeps(cfg: Config, w: World, job: Job, t: Transfer, o: Io)
    requires TransferInv(cfg, w, job.name, t) && (t.MoveUnlink? || t.UnlinkSource?)
    ensures var (w', t') := TransferStep(cfg, w, job, t, o);
            TransferInv(cfg, w', job.name, t') && TransferFrame(w, w', job.name)
  {
    hide Ordered, Kept, Stored;
    var n := job.name;
    BacklogIsClosed(w, n);
    var (w', t') := TransferStep(cfg, w, job, t, o);
    if o.Done? {
      UnlinkKeeps(w, w', n);
    }
  }

  lemma UnlinkCopyKeeps(cfg: Config, w: World, job: Job, o: Io)
    requires TransferInv(cfg, w, job.name, UnlinkCopy)
    ensures var (w', t') := TransferStep(cfg, w, job, UnlinkCopy, o);
            TransferInv(cfg, w', job.name, t') && TransferFrame(w, w', job.name)
  {
    hide Ordered, Kept, Stored;
    var (w', t') := TransferStep(cfg, w, job, UnlinkCopy, o);
    RemoveTouchesOnly(w, Resolve(w, job.mount), Path(job.date, job.name));
    CopyKeeps(w, w', job.name);
  }

  /** A copy that matches the digest of the source matches the source. */
  lemma HashCopyKeeps(cfg: Config, w: World, job: Job, t: Transfer, o: Io)
    requires TransferInv(cfg, w, job.name, t) && t.HashCopy? && NoCollision(cfg, w, job, t)
    ensures var (w', t') := TransferStep(cfg, w, job, t, o);
            TransferInv(cfg, w', job.name, t') && TransferFrame(w, w', job.name)
  {
    hide Ordered, Kept;
    var (w', t') := TransferStep(cfg, w, job, t, o);
    if t'.UnlinkSource? {
      assert At(w.stores, Resolve(w, job.mount), Path(job.date, job.name), w.backlog[job.name].content);
    }
  }

  lemma MkdirKeeps(cfg: Config, w: World, job: Job, o: Io)
    requires TransferInv(cfg, w, job.name, Mkdir)
    ensures var (w', t') := TransferStep(cfg, w, job, Mkdir, o);
            TransferInv(cfg, w', job.name, t') && TransferFrame(w, w', job.name)
  {
    var (w', t') := TransferStep(cfg, w, job, Mkdir, o);
    MakeDirTouchesNothing(w, Resolve(w, job.mount), job.date);
    hide Ordered, Kept, Stored;
    CopyKeeps(w, w', job.name);
  }

  /** Every system call of transfer_file keeps the invariant and touches nothing but its own file. */
  lemma TransferKeeps(cfg: Config, w: World, job: Job, t: Transfer, o: Io)
    requires Dependable(cfg) && TransferInv(cfg, w, job.name, t) && TransferOwed(cfg, w, job, t, o)
    ensures var (w', t') := TransferStep(cfg, w, job, t, o);
            TransferInv(cfg, w', job.name, t') && TransferFrame(w, w', job.name)
  {
    hide Ordered, Kept, Stored;
    match t
    case Mkdir => MkdirKeeps(cfg, w, job, o);
    case Move => MoveKeeps(cfg, w, job, o);
    case Copy => CopyCallKeeps(cfg, w, job, o);
    case HashCopy(source) => HashCopyKeeps(cfg, w, job, t, o);
    case UnlinkCopy => UnlinkCopyKeeps(cfg, w, job, o);
    case MoveUnlink => UnlinkCallKeeps(cfg, w, job, t, o);
    case UnlinkSource(source) => UnlinkCallKeeps(cfg, w, job, t, o);
    case _ =>
  }

  /** The daemon's part of the invariant, and what it leaves of the mover's. */
  ghost predicate DaemonInv(cfg: Config, s: System) {
    Kept(s.w) && CopyOk(s.w, s.mover) && DaemonOk(cfg, s.w, s.daemon)
  }

  lemma DaemonTransferKeeps(cfg: Config, s: System, b: Batch, t: Transfer, o: Io)
    requires Dependable(cfg) && Inv(cfg, s) && s.daemon == Moving(b, t) && !Returned(t)
    requires TransferOwed(cfg, s.w, JobOf(b), t, o)
    ensures DaemonInv(cfg, Step(cfg, s, DaemonDo(o)))
  {
    hide Ordered, Kept, Stored, MoverOk, StrictPart;
    var w, job := s.w, JobOf(b);
    TransferKeeps(cfg, w, job, t, o);
    var (w', t') := TransferStep(cfg, w, job, t, o);
    hide TransferStep, TransferOk;
    if job.name in w.backlog {
      MoverUndisturbed(w, w', s.mover, job.name);
    }
    StrictlySortedIsDistinct(b.listing);
  }

  /** Manifest and log writes change no capture file. */
  lemma TextKeeps(w: World, w': World, m: Mover)
    requires Kept(w) && CopyOk(w, m) && w' == w.(stores := w'.stores)
    requires forall p: Place, path: Path, c: Content :: At(w.stores, p, path, c) ==> At(w'.stores, p, path, c)
    ensures Kept(w') && CopyOk(w', m)
  {
    forall n, c | Stored(w.stores, n, c) ensures Stored(w'.stores, n, c) {
      var p: Place, d: Date :| At(w.stores, p, Path(d, n), c);
      assert At(w'.stores, p, Path(d, n), c);
    }
    hide Stored, At;
    forall x | x in w'.original ensures KeptOne(w'.ring, w'.backlog, w'.stores, x, w'.original[x]) {
      assert KeptOne(w.ring, w.backlog, w.stores, x, w.original[x]);
    }
  }

  lemma DaemonKeeps(cfg: Config, s: System, o: Io)
    requires Dependable(cfg) && Inv(cfg, s) && Admissible(cfg, s, DaemonDo(o))
    ensures DaemonInv(cfg, Step(cfg, s, DaemonDo(o)))
  {
    hide OrderInv, Kept, CopyOk;
    match s.daemon
    case Listing(m) =>
      if o.Listed? {
        SortNamesStrict(o.names);
      }
    case Moving(b, t) =>
      if !Returned(t) {
        DaemonTransferKeeps(cfg, s, b, t, o);
      }
    case Manifest(b) => TextKeeps(s.w, WriteManifest(s.w, b, o), s.mover);
    case Log(b) => TextKeeps(s.w, AppendLog(s.w, b, o), s.mover);
    case _ =>
  }

  // ---------------------------------------------------------------- every step, every run

  lemma CaptureKeeps(cfg: Config, s: System, e: Event)
    requires Inv(cfg, s) && Admissible(cfg, s, e) && !e.MoverDo? && !e.DaemonDo? && !e.MoverKilled? && !e.DaemonKilled?
    ensures Inv(cfg, Step(cfg, s, e))
  {
    hide Inv, Write, Rotate, CloseActive, FreshCapture;
    match e
    case Packets(data) => WriteKeeps(cfg, s, data);
    case NewCapture(n) => RotateKeeps(cfg, s, n);
    case StopCapture => CloseKeeps(cfg, s);
    case Wait(nanos) => ClockAndMountsKeep(cfg, s, s.w.clock + nanos, s.w.mounts);
    case Attach(m, id) => ClockAndMountsKeep(cfg, s, s.w.clock, s.w.mounts[m := id]);
    case Detach(m) => ClockAndMountsKeep(cfg, s, s.w.clock, s.w.mounts - {m});
  }

  lemma StepKeeps(cfg: Config, s: System, e: Event)
    requires Sane(cfg) && Inv(cfg, s) && Admissible(cfg, s, e)
    ensures Inv(cfg, Step(cfg, s, e))
  {
    StepKeepsOrder(cfg, s, e);
    SaneIsDependable(cfg);
    hide OrderInv, Kept, CopyOk, DaemonOk, MoverStep, DaemonStep, Admissible, Sane;
    match e
    case MoverDo(o) => MoverKeeps(cfg, s, o);
    case DaemonDo(o) => DaemonKeeps(cfg, s, o);
    case MoverKilled => KillKeeps(cfg, s);
    case DaemonKilled => KillKeeps(cfg, s);
    case _ =>
      CaptureKeeps(cfg, s, e);
      hide Step;
  }

  lemma KillKeeps(cfg: Config, s: System)
    requires Inv(cfg, s)
    ensures CopyOk(s.w, Asleep) && DaemonOk(cfg, s.w, Idle(false))
  {
  }

  lemma {:induction false} RunKeeps(cfg: Config, s: System, es: seq<Event>)
    requires Sane(cfg) && Inv(cfg, s) && AdmissibleRun(cfg, s, es)
    ensures Inv(cfg, Run(cfg, s, es))
  {
    if es != [] {
      SplitRun(cfg, s, es);
      hide *;
      var k := |es| - 1;
      RunKeeps(cfg, s, es[..k]);
      StepKeeps(cfg, Run(cfg, s, es[..k]), es[k]);
    }
  }

  lemma SaneIsDependable(cfg: Config)
    requires Sane(cfg)
    ensures Cautious(cfg) && Dependable(cfg)
  {
  }

  lemma InvIsOrdered(cfg: Config, s: System)
    requires Inv(cfg, s)
    ensures OrderInv(cfg, s)
  {
  }

  lemma OriginalsFixedStep(cfg: Config, s: System, e: Event)
    requires Inv(cfg, s) && Admissible(cfg, s, e)
    ensures OriginalsKept(s.w, Step(cfg, s, e).w)
  {
    hide NewestPart, StrictPart, OthersQuiet, RingKnown, Distinct, AllKept, MoverOk, CopyOk, DaemonOk;
    match e
    case DaemonDo(o) => DaemonKeepsHistory(cfg, s.w, s.daemon, o);
    case MoverDo(o) => MoverKeepsHistory(cfg, s.w, s.mover, o);
    case _ =>
  }
}
