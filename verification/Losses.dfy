/** Exactly when no capture is lost and when manifests stay true: for each condition, a run of a fresh sensor that
    breaks the promise without it. */
module Losses {
  import opened Hashing
  import opened Names
  import opened Files
  import opened Sorting
  import opened Pipeline
  import opened Order
  import opened Safety
  import opened Manifests
  import opened Guarantees
  import opened QuietMoves
  import opened Reach
  import opened Schedules
  import opened Totals
  import OldestFirst

  ghost predicate NoLoss(cfg: Config, kind: Kind) {
    forall s, n :: Reachable(cfg, kind, s) && n in s.w.original ==> Held(s.w, n, s.w.original[n])
  }

  const HERE: Mount := "/mnt/seer_external"
  const TODAY: Date := "20250101"

  /** The capture held [7], and nothing of that is left. */
  ghost predicate Lost(w: World, n: Name) {
    n in w.original && w.original[n] == [7] && n !in w.ring && w.backlog == map[] && !Stored(w.stores, n, [7])
  }

  lemma LostIsLost(cfg: Config, kind: Kind, s: System, n: Name)
    requires FromStart(cfg, kind, s) && Lost(s.w, n)
    ensures !NoLoss(cfg, kind) && !NoLoss(cfg, Any)
  {
    End(cfg, kind, s);
    hide FromStart, Reachable, Stored;
  }

  /** Copies of `n` are at one place only. */
  ghost predicate OnlyAt(stores: map<Place, Store>, n: Name, p: Place) {
    forall q: Place, d: Date, c: Content :: At(stores, q, Path(d, n), c) ==> q == p && d == TODAY
  }

  /** What is put there is all there is. */
  lemma PutIsAll(w: World, n: Name, p: Place, c: Content, other: Content)
    requires OnlyAt(w.stores, n, p) && c != other
    ensures var stores := Put(w, p, Path(TODAY, n), c).stores; OnlyAt(stores, n, p) && !Stored(stores, n, other)
  {
    var stores := Put(w, p, Path(TODAY, n), c).stores;
    forall q: Place, d: Date, x: Content | At(stores, q, Path(d, n), x) ensures q == p && d == TODAY && x == c {
      if q != p || d != TODAY {
        assert At(w.stores, q, Path(d, n), x);
      }
    }
  }

  lemma MakeDirAddsNone(w: World, n: Name, p: Place, q: Place)
    ensures OnlyAt(w.stores, n, p) ==> OnlyAt(MakeDir(w, q, TODAY).stores, n, p)
    ensures HasDir(MakeDir(w, q, TODAY), q, TODAY)
  {
    var w' := MakeDir(w, q, TODAY);
    forall x: Place, d: Date, c: Content | At(w'.stores, x, Path(d, n), c) ensures At(w.stores, x, Path(d, n), c) {
    }
  }

  // ---------------------------------------------------------------- the operator

  lemma AttachDrive(cfg: Config, kind: Kind, s: System, id: nat) returns (s': System)
    requires FromStart(cfg, kind, s) && s.w.mounts == map[] && (kind == Any || (kind == Quiet && !s.daemon.Moving?))
    ensures FromStart(cfg, kind, s') && s' == s.(w := s.w.(mounts := map[HERE := id]))
  {
    hide FromStart;
    s' := Then(cfg, kind, s, Attach(HERE, id));
  }

  lemma DetachDrive(cfg: Config, s: System, id: nat) returns (s': System)
    requires FromStart(cfg, Quiet, s) && s.w.mounts == map[HERE := id]
    ensures FromStart(cfg, Quiet, s') && s' == s.(w := s.w.(mounts := map[]))
  {
    hide FromStart;
    s' := Then(cfg, Quiet, s, Detach(HERE));
  }

  // ---------------------------------------------------------------- a tick with a drive

  lemma MakingStep(cfg: Config, s: System, n: Name, id: nat)
    requires s.mover == Making(n, HERE, TODAY) && s.w.mounts == map[HERE := id]
    ensures Step(cfg, s, MoverDo(Io.Done)) ==
            System(MakeDir(s.w, Volume(id), TODAY), Routed(n, Some(HERE), TODAY), s.daemon)
  {
  }

  /** A tick gets as far as the move to the drive. */
  lemma TickRoutes(cfg: Config, s: System, n: Name, id: nat) returns (s': System)
    requires FromStart(cfg, Quiet, s) && s.mover == Asleep && Ready(cfg, s.w, n) && s.w.mounts == map[HERE := id]
    ensures FromStart(cfg, Quiet, s')
    ensures s' == System(MakeDir(s.w, Volume(id), TODAY), Routed(n, Some(HERE), TODAY), s.daemon)
  {
    ReadyPick(cfg, s.w, n);
    assert |s.w.ring| >= cfg.thresh;
    hide FromStart, Ready, Step, OldestFirst.Pick, IsListing, MakeDir;
    s' := TickPicks(cfg, s, s.w.captured, n, Some(HERE), TODAY);
    MakingStep(cfg, s', n, id);
    s' := Then(cfg, Quiet, s', MoverDo(Io.Done));
  }

  lemma DriveSteps(cfg: Config, s: System, n: Name, data: Content)
    requires n in s.w.ring && s.w.mounts == map[HERE := 0] && HasDir(s.w, Volume(0), TODAY)
    requires s.mover == Routed(n, Some(HERE), TODAY)
    ensures var s' := Step(cfg, s, MoverDo(Wrote(data)));
            && s' == System(Put(s.w, Volume(0), Path(TODAY, n), data), Copied(n, Some(HERE), TODAY), s.daemon)
            && Step(cfg, s', MoverDo(Io.Done)) == System(s'.w.(ring := s'.w.ring - {n}), Asleep, s.daemon)
  {
  }

  /** A tick takes the file to the drive. */
  lemma TickToDrive(cfg: Config, s: System, n: Name, data: Content) returns (s': System)
    requires FromStart(cfg, Quiet, s) && s.mover == Asleep && Ready(cfg, s.w, n) && n in s.w.ring
    requires s.w.mounts == map[HERE := 0] && OnlyAt(s.w.stores, n, Volume(0))
    requires cfg.moverExact ==> data == s.w.ring[n].content
    ensures FromStart(cfg, Quiet, s') && s'.daemon == s.daemon && s'.mover == Asleep
    ensures s'.w == s.w.(ring := s.w.ring - {n}, stores := s'.w.stores)
    ensures OnlyAt(s'.w.stores, n, Volume(0)) && (data != [7] ==> !Stored(s'.w.stores, n, [7]))
  {
    hide FromStart, Ready, Step, Stored, OnlyAt;
    s' := TickRoutes(cfg, s, n, 0);
    MakeDirAddsNone(s.w, n, Volume(0), Volume(0));
    DriveSteps(cfg, s', n, data);
    PutIsAll(s'.w, n, Volume(0), data, if data != [7] then [7] else [8]);
    s' := Then(cfg, Quiet, s', MoverDo(Wrote(data)));
    s' := Then(cfg, Quiet, s', MoverDo(Io.Done));
  }

  lemma NothingStored(n: Name, p: Place)
    ensures OnlyAt(map[], n, p)
  {
  }

  /** A copy that goes wrong on the way to the drive is not noticed. */
  lemma BlindMover(cfg: Config)
    requires !cfg.moverExact
    ensures !NoLoss(cfg, Quiet) && !NoLoss(cfg, Any)
  {
    hide FromStart, NoLoss, Stored;
    var s, n := ReadySensor(cfg);
    var w := s.w;
    NothingStored(n, Volume(0));
    s := AttachDrive(cfg, Quiet, s, 0);
    ReadySame(cfg, w, s.w, n);
    hide Ready, OnlyAt;
    s := TickToDrive(cfg, s, n, [8]);
    LostIsLost(cfg, Quiet, s, n);
  }

  // ---------------------------------------------------------------- a batch of one file

  function TheBatch(n: Name): Batch {
    Batch(HERE, TODAY, [n], 0, [], [], [], [])
  }

  /** A drive is there and the backlog holds one file. */
  ghost predicate OneInBacklog(w: World, n: Name) {
    w.mounts == map[HERE := 0] && n in w.backlog && w.backlog == map[n := w.backlog[n]]
  }

  lemma StartExport(cfg: Config, s: System, n: Name) returns (s': System)
    requires FromStart(cfg, Quiet, s) && s.daemon == Idle(false) && OneInBacklog(s.w, n)
    ensures FromStart(cfg, Quiet, s') && s' == System(s.w.(clock := s'.w.clock), s.mover, Moving(TheBatch(n), Mkdir))
  {
    hide FromStart;
    var age := 3 * cfg.rotateSeconds * NANOS;
    var mtime := s.w.backlog[n].mtime;
    s' := Then(cfg, Quiet, s, Wait(if mtime + age > s.w.clock then mtime + age - s.w.clock else 0));
    assert !IsActive(cfg, s'.w, n);
    assert IsListing([n], s'.w.backlog);
    hide IsActive, IsListing;
    ExportSteps(cfg, s', n);
    hide Step;
    s' := Then(cfg, Quiet, s', DaemonDo(Seen(Some(HERE), TODAY)));
    s' := Then(cfg, Quiet, s', DaemonDo(Listed([n], TODAY)));
    s' := Then(cfg, Quiet, s', DaemonDo(Io.Done));
  }

  lemma ExportSteps(cfg: Config, s: System, n: Name)
    requires s.daemon == Idle(false) && !IsActive(cfg, s.w, n)
    ensures Step(cfg, s, DaemonDo(Seen(Some(HERE), TODAY))) == s.(daemon := Listing(HERE))
    ensures Step(cfg, s.(daemon := Listing(HERE)), DaemonDo(Listed([n], TODAY))) == s.(daemon := AtFile(TheBatch(n)))
    ensures Step(cfg, s.(daemon := AtFile(TheBatch(n))), DaemonDo(Io.Done)) == s.(daemon := Moving(TheBatch(n), Mkdir))
  {
    SortOfSorted(Ascending(), [n]);
    hide IsActive;
  }

  lemma MkdirStep(cfg: Config, s: System, n: Name)
    requires s.daemon == Moving(TheBatch(n), Mkdir)
    ensures Step(cfg, s, DaemonDo(Io.Done)) ==
            System(MakeDir(s.w, Resolve(s.w, HERE), TODAY), s.mover, Moving(TheBatch(n), StatDevices))
  {
  }

  /** The drive is written to, or its copy overwritten, the digests agree, and the file leaves the backlog. */
  lemma CopyOver(cfg: Config, s: System, n: Name) returns (s': System)
    requires FromStart(cfg, Quiet, s) && s.daemon == Moving(TheBatch(n), Mkdir) && OneInBacklog(s.w, n)
    ensures FromStart(cfg, Quiet, s') && s'.daemon == Moving(TheBatch(n), Verified(cfg.sha(s.w.backlog[n].content)))
    ensures s'.mover == s.mover
    ensures var w, c := MakeDir(s.w, Volume(0), TODAY), s.w.backlog[n].content;
            s'.w == Put(w, Volume(0), Path(TODAY, n), c).(backlog := map[])
  {
    var b, c := TheBatch(n), s.w.backlog[n].content;
    var w := MakeDir(s.w, Volume(0), TODAY);
    MkdirStep(cfg, s, n);
    MakeDirAddsNone(s.w, n, Volume(0), Volume(0));
    CopySteps(cfg, System(w, s.mover, s.daemon), n);
    CompareSteps(cfg, System(Put(w, Volume(0), Path(TODAY, n), c), s.mover, s.daemon), n, c);
    hide FromStart, Step, Put, HasDir, OnlyAt;
    s' := Then(cfg, Quiet, s, DaemonDo(Io.Done));
    assert s' == System(w, s.mover, Moving(b, StatDevices));
    s' := Then(cfg, Quiet, s', DaemonDo(Io.Done));
    s' := Then(cfg, Quiet, s', DaemonDo(Wrote(c)));
    s' := Verify(cfg, s', n, c);
  }

  lemma Verify(cfg: Config, s: System, n: Name, c: Content) returns (s': System)
    requires FromStart(cfg, Quiet, s) && s.daemon == Moving(TheBatch(n), HashSource) && OneInBacklog(s.w, n)
    requires s.w.backlog[n].content == c && At(s.w.stores, Volume(0), Path(TODAY, n), c)
    ensures FromStart(cfg, Quiet, s')
    ensures s' == System(s.w.(backlog := map[]), s.mover, Moving(TheBatch(n), Verified(cfg.sha(c))))
  {
    CompareSteps(cfg, s, n, c);
    hide FromStart, Step;
    s' := Then(cfg, Quiet, s, DaemonDo(Io.Done));
    s' := Then(cfg, Quiet, s', DaemonDo(Io.Done));
    s' := Then(cfg, Quiet, s', DaemonDo(Io.Done));
  }

  lemma CopySteps(cfg: Config, s: System, n: Name)
    requires OneInBacklog(s.w, n) && HasDir(s.w, Volume(0), TODAY)
    ensures var b, c := TheBatch(n), s.w.backlog[n].content;
            var w' := Put(s.w, Volume(0), Path(TODAY, n), c);
            && Step(cfg, s.(daemon := Moving(b, StatDevices)), DaemonDo(Io.Done)) == s.(daemon := Moving(b, Copy))
            && Step(cfg, s.(daemon := Moving(b, Copy)), DaemonDo(Wrote(c))) == System(w', s.mover, Moving(b, HashSource))
            && OneInBacklog(w', n) && w'.backlog == s.w.backlog && At(w'.stores, Volume(0), Path(TODAY, n), c)
  {
  }

  lemma CompareSteps(cfg: Config, s: System, n: Name, c: Content)
    requires OneInBacklog(s.w, n) && s.w.backlog[n].content == c && At(s.w.stores, Volume(0), Path(TODAY, n), c)
    ensures var b, sha := TheBatch(n), cfg.sha(c);
            && Step(cfg, s.(daemon := Moving(b, HashSource)), DaemonDo(Io.Done)) == s.(daemon := Moving(b, HashCopy(sha)))
            && Step(cfg, s.(daemon := Moving(b, HashCopy(sha))), DaemonDo(Io.Done)) ==
               s.(daemon := Moving(b, UnlinkSource(sha)))
            && Step(cfg, s.(daemon := Moving(b, UnlinkSource(sha))), DaemonDo(Io.Done)) ==
               System(s.w.(backlog := map[]), s.mover, Moving(b, Verified(sha)))
  {
    assert s.w.backlog - {n} == map[];
  }

  // ---------------------------------------------------------------- a fragment in the backlog

  lemma FailStep(cfg: Config, s: System, n: Name)
    requires n in s.w.ring && s.w.backlog == map[] && s.mover == Routed(n, None, TODAY)
    ensures Step(cfg, s, MoverDo(Raise(Some([])))) ==
            System(s.w.(backlog := map[n := File([], s.w.clock)]), Asleep, s.daemon)
  {
  }

  /** A move to the backlog comes to a copy that fails half way. */
  lemma MoveFails(cfg: Config, s: System, n: Name) returns (s': System)
    requires !(cfg.sharedDevice && cfg.moverRenames) && s.mover == Asleep && s.w.backlog == map[]
    requires FromStart(cfg, Quiet, s) && Ready(cfg, s.w, n) && n in s.w.ring
    ensures FromStart(cfg, Quiet, s') && s' == s.(w := s.w.(backlog := map[n := File([], s.w.clock)]))
  {
    ReadyPick(cfg, s.w, n);
    assert |s.w.ring| >= cfg.thresh;
    hide FromStart, Ready, Step, OldestFirst.Pick, IsListing;
    s' := TickPicks(cfg, s, s.w.captured, n, None, TODAY);
    FailStep(cfg, s', n);
    s' := Then(cfg, Quiet, s', MoverDo(Raise(Some([]))));
  }

  /** The retry goes to a drive attached meanwhile; then the fragment that stayed behind is exported over it. */
  lemma FragmentOverwrites(cfg: Config)
    requires !(cfg.sharedDevice && cfg.moverRenames)
    ensures !NoLoss(cfg, Quiet) && !NoLoss(cfg, Any)
  {
    hide FromStart, NoLoss, Stored;
    var s, n := ReadySensor(cfg);
    var w := s.w;
    NothingStored(n, Volume(0));
    s := MoveFails(cfg, s, n);
    s := AttachDrive(cfg, Quiet, s, 0);
    ReadySame(cfg, w, s.w, n);
    hide Ready, OnlyAt;
    s := TickToDrive(cfg, s, n, [7]);
    assert OneInBacklog(s.w, n) && s.w.backlog[n].content == [];
    s := StartExport(cfg, s, n);
    var before := s.w;
    s := CopyOver(cfg, s, n);
    MakeDirAddsNone(before, n, Volume(0), Volume(0));
    PutIsAll(MakeDir(before, Volume(0), TODAY), n, Volume(0), [], [7]);
    LostIsLost(cfg, Quiet, s, n);
  }

  // ---------------------------------------------------------------- the daemon's unverified move

  lemma GiveUpStep(cfg: Config, s: System, n: Name, to: Mount)
    requires s.mover == Routed(n, Some(to), TODAY)
    ensures Step(cfg, s, MoverDo(Raise(None))) == s.(mover := Asleep)
  {
  }

  /** The drive has the directory of today from a move that failed, the drive is away, and the capture has gone to the
      backlog. */
  lemma PreparedCapture(cfg: Config, id: nat) returns (s: System, n: Name)
    ensures FromStart(cfg, Quiet, s) && s.daemon == Idle(false) && s.w.mounts == map[]
    ensures n in s.w.backlog && s.w.backlog == map[n := s.w.backlog[n]] && s.w.backlog[n].content == [7] && n !in s.w.ring
    ensures n in s.w.original && s.w.original[n] == [7]
    ensures HasDir(s.w, Volume(id), TODAY) && s.w.stores == map[Volume(id) := s.w.stores[Volume(id)]]
    ensures s.w.stores[Volume(id)] == Store(map[], map[], [], {TODAY})
  {
    hide FromStart;
    s, n := ReadySensor(cfg);
    var w := s.w;
    s := AttachDrive(cfg, Quiet, s, id);
    ReadySame(cfg, w, s.w, n);
    hide Ready;
    s := TickRoutes(cfg, s, n, id);
    GiveUpStep(cfg, s, n, HERE);
    hide Step;
    s := Then(cfg, Quiet, s, MoverDo(Raise(None)));
    s := DetachDrive(cfg, s, id);
    ReadySame(cfg, w, s.w, n);
    s := StageIt(cfg, s, n);
  }

  lemma StageIt(cfg: Config, s: System, n: Name) returns (s': System)
    requires FromStart(cfg, Quiet, s) && s.mover == Asleep && Ready(cfg, s.w, n) && n in s.w.ring
    ensures FromStart(cfg, Quiet, s') && s' == Staged(s, n)
  {
    ReadyPick(cfg, s.w, n);
    assert |s.w.ring| >= cfg.thresh;
    hide FromStart, Ready, OldestFirst.Pick, IsListing, Step;
    s' := TickAims(cfg, s, s.w.captured, n);
    s' := Then(cfg, Quiet, s', MoverDo(Io.Done));
  }

  lemma StatStep(cfg: Config, s: System, n: Name)
    requires cfg.bareLocal && s.w.mounts == map[] && HasDir(s.w, Bare(HERE), TODAY) && n in s.w.backlog
    requires s.daemon == Moving(TheBatch(n), StatDevices)
    ensures Step(cfg, s, DaemonDo(Io.Done)) == s.(daemon := Moving(TheBatch(n), Move))
  {
  }

  /** The drive goes away before the directory is made; the daemon is about to move to the bare directory. */
  lemma AboutToMove(cfg: Config) returns (s: System, n: Name)
    requires cfg.bareLocal
    ensures FromStart(cfg, Quiet, s) && s.daemon == Moving(TheBatch(n), Move) && s.w.mounts == map[]
    ensures n in s.w.backlog && s.w.backlog == map[n := s.w.backlog[n]] && n !in s.w.ring
    ensures n in s.w.original && s.w.original[n] == [7]
    ensures HasDir(s.w, Volume(0), TODAY) && HasDir(s.w, Bare(HERE), TODAY)
    ensures OnlyAt(s.w.stores, n, Volume(0)) && OnlyAt(s.w.stores, n, Bare(HERE))
  {
    hide FromStart;
    s, n := PreparedCapture(cfg, 0);
    s := AttachDrive(cfg, Quiet, s, 0);
    s := StartExport(cfg, s, n);
    s := DetachDrive(cfg, s, 0);
    var w := s.w;
    assert OnlyAt(w.stores, n, Volume(0)) && OnlyAt(w.stores, n, Bare(HERE)) && HasDir(w, Volume(0), TODAY);
    MkdirStep(cfg, s, n);
    hide Step;
    s := Then(cfg, Quiet, s, DaemonDo(Io.Done));
    MakeDirAddsNone(w, n, Volume(0), Bare(HERE));
    MakeDirAddsNone(w, n, Bare(HERE), Bare(HERE));
    assert HasDir(s.w, Volume(0), TODAY);
    StatStep(cfg, s, n);
    hide OnlyAt;
    s := Then(cfg, Quiet, s, DaemonDo(Io.Done));
  }

  /** The move comes to a copy, which goes wrong. */
  lemma WrongCopySteps(cfg: Config, s: System, n: Name)
    requires s.daemon == Moving(TheBatch(n), Move) && n in s.w.backlog && s.w.backlog == map[n := s.w.backlog[n]]
    requires HasDir(s.w, Resolve(s.w, HERE), TODAY)
    ensures var s' := Step(cfg, s, DaemonDo(Wrote([8])));
            && s' == System(Put(s.w, Resolve(s.w, HERE), Path(TODAY, n), [8]), s.mover, Moving(TheBatch(n), MoveUnlink))
            && Step(cfg, s', DaemonDo(Io.Done)) == System(s'.w.(backlog := map[]), s.mover, Moving(TheBatch(n), HashMoved))
  {
    assert s.w.backlog - {n} == map[];
  }

  lemma WrongCopy(cfg: Config, kind: Kind, s: System, n: Name) returns (s': System)
    requires kind != SpacedOut && FromStart(cfg, kind, s) && s.daemon == Moving(TheBatch(n), Move)
    requires !cfg.moveExact && (cfg.daemonRenames ==> Resolve(s.w, HERE).Volume?)
    requires n in s.w.backlog && s.w.backlog == map[n := s.w.backlog[n]] && n !in s.w.ring
    requires n in s.w.original && s.w.original[n] == [7]
    requires HasDir(s.w, Resolve(s.w, HERE), TODAY) && OnlyAt(s.w.stores, n, Resolve(s.w, HERE))
    ensures FromStart(cfg, kind, s') && Lost(s'.w, n)
  {
    hide FromStart, Stored, OnlyAt;
    WrongCopySteps(cfg, s, n);
    PutIsAll(s.w, n, Resolve(s.w, HERE), [8], [7]);
    hide Step, HasDir;
    s' := Then(cfg, kind, s, DaemonDo(Wrote([8])));
    s' := Then(cfg, kind, s', DaemonDo(Io.Done));
  }

  /** The drive is back for the move, which then copies, wrongly. */
  lemma BlindMove(cfg: Config)
    requires cfg.bareLocal && !cfg.moveExact
    ensures !NoLoss(cfg, Any)
  {
    hide FromStart, NoLoss, OnlyAt;
    var s, n := AboutToMove(cfg);
    Forget(cfg, Quiet, s);
    s := AttachDrive(cfg, Any, s, 0);
    s := WrongCopy(cfg, Any, s, n);
    LostIsLost(cfg, Any, s, n);
  }

  /** The rename to the bare directory raises, and the file is copied, wrongly. */
  lemma BlindRename(cfg: Config)
    requires cfg.bareLocal && !cfg.moveExact && !cfg.daemonRenames
    ensures !NoLoss(cfg, Quiet)
  {
    hide FromStart, NoLoss, OnlyAt;
    var s, n := AboutToMove(cfg);
    s := WrongCopy(cfg, Quiet, s, n);
    LostIsLost(cfg, Quiet, s, n);
  }

  // ---------------------------------------------------------------- exactly when

  lemma SaneLosesNothing(cfg: Config, s: System, n: Name)
    requires Sane(cfg) && Reachable(cfg, Any, s) && n in s.w.original
    ensures Held(s.w, n, s.w.original[n])
  {
    ReachableIsGood(cfg, s);
    hide Reachable, OrderInv, Stored;
    assert KeptOne(s.w.ring, s.w.backlog, s.w.stores, n, s.w.original[n]);
  }

  /** At a safe threshold, no capture is lost in any run if and only if the ring and the backlog are on one device, the
      mover's renames there do not raise, its copies are exact, and the copies of the daemon's shutil.move are exact or
      cannot come about because the directories under the mount points are on another device. */
  lemma NoLossIff(cfg: Config)
    requires Cautious(cfg)
    ensures NoLoss(cfg, Any) <==>
              cfg.sharedDevice && cfg.moverRenames && cfg.moverExact && (cfg.moveExact || !cfg.bareLocal)
  {
    if Dependable(cfg) {
      forall s, n | Reachable(cfg, Any, s) && n in s.w.original ensures Held(s.w, n, s.w.original[n]) {
        SaneLosesNothing(cfg, s, n);
      }
    } else {
      hide NoLoss;
      if !(cfg.sharedDevice && cfg.moverRenames) {
        FragmentOverwrites(cfg);
      } else if !cfg.moverExact {
        BlindMover(cfg);
      } else {
        BlindMove(cfg);
      }
    }
  }

  lemma QuietLosesNothing(cfg: Config, s: System, n: Name)
    requires Cautious(cfg) && cfg.sharedDevice && cfg.moverRenames && cfg.moverExact && cfg.daemonRenames
    requires Reachable(cfg, Quiet, s) && n in s.w.original
    ensures Held(s.w, n, s.w.original[n])
  {
    var s0 :| FreshSensor(s0) && Reaches(cfg, s0, Quiet, s);
    var es :| AdmissibleRun(cfg, s0, es) && OfKind(cfg, s0, es, Quiet) && Run(cfg, s0, es) == s;
    FreshSensorIsGood(cfg, s0);
    assert MoveIsLocal(cfg, s0) && QuietRun(cfg, s0, es) && es[..|es|] == es;
    hide *;
    NoCaptureLostWhenQuiet(cfg, s0, es, |es|, n);
  }

  lemma QuietIsAny(cfg: Config, s: System)
    requires Reachable(cfg, Quiet, s)
    ensures Reachable(cfg, Any, s)
  {
    var s0 :| FreshSensor(s0) && Reaches(cfg, s0, Quiet, s);
    hide Run, AdmissibleRun, QuietRun, FreshSensor;
    assert Reaches(cfg, s0, Any, s);
  }

  /** In runs in which no volume is attached between the comparison of devices and the move, the daemon's renames not
      raising is as good as its copies being exact. */
  lemma NoLossWhenQuietIff(cfg: Config)
    requires Cautious(cfg)
    ensures NoLoss(cfg, Quiet) <==>
              && cfg.sharedDevice && cfg.moverRenames && cfg.moverExact
              && (cfg.moveExact || !cfg.bareLocal || cfg.daemonRenames)
  {
    if cfg.sharedDevice && cfg.moverRenames && cfg.moverExact && (cfg.moveExact || !cfg.bareLocal || cfg.daemonRenames) {
      forall s, n | Reachable(cfg, Quiet, s) && n in s.w.original ensures Held(s.w, n, s.w.original[n]) {
        if cfg.daemonRenames {
          QuietLosesNothing(cfg, s, n);
        } else {
          QuietIsAny(cfg, s);
          SaneLosesNothing(cfg, s, n);
        }
      }
    } else {
      hide NoLoss;
      if !(cfg.sharedDevice && cfg.moverRenames) {
        FragmentOverwrites(cfg);
      } else if !cfg.moverExact {
        BlindMover(cfg);
      } else {
        BlindRename(cfg);
      }
    }
  }

  // ---------------------------------------------------------------- true manifests need a steady mount

  /** Every manifest is true after every run of a fresh sensor that started with true ones. */
  ghost predicate AlwaysTruthful(cfg: Config, swaps: bool) {
    forall s, es ::
      FreshSensor(s) && ManifestsTrue(cfg, s.w) && AdmissibleRun(cfg, s, es) && (swaps || SteadyRun(cfg, s, es))
      ==> ManifestsTrue(cfg, Run(cfg, s, es).w)
  }

  lemma ManifestStep(cfg: Config, s: System, b: Batch, line: Line)
    requires s.daemon == Manifest(b) && b.mount == HERE && b.date == TODAY && b.transferred == [line]
    requires s.w.mounts == map[HERE := 1] && HasDir(s.w, Volume(1), TODAY)
    ensures var w' := Step(cfg, s, DaemonDo(Io.Done)).w;
            && ManifestAt(w'.stores, Volume(1), TODAY) == [line]
            && forall p, path, c :: At(w'.stores, p, path, c) ==> At(s.w.stores, p, path, c)
  {
    SortOfSorted(ByName(), [line]);
  }

  /** A file is exported to volume 0 and its manifest is due, while volume 1 has the directory too. */
  lemma ManifestDue(cfg: Config) returns (s: System, n: Name)
    ensures FromStart(cfg, Quiet, s) && OnlyAt(s.w.stores, n, Volume(0)) && HasDir(s.w, Volume(1), TODAY)
    ensures s.w.mounts == map[HERE := 0] && s.daemon.Manifest?
    ensures s.daemon.b.mount == HERE && s.daemon.b.date == TODAY && s.daemon.b.transferred == [Line(n, cfg.sha([7]))]
  {
    hide FromStart;
    s, n := PreparedCapture(cfg, 1);
    s := AttachDrive(cfg, Quiet, s, 0);
    s := StartExport(cfg, s, n);
    var w := s.w;
    assert OnlyAt(w.stores, n, Volume(0)) && HasDir(w, Volume(1), TODAY);
    MakeDirAddsNone(w, n, Volume(0), Volume(0));
    PutIsAll(MakeDir(w, Volume(0), TODAY), n, Volume(0), [7], [8]);
    s := CopyOver(cfg, s, n);
    assert HasDir(s.w, Volume(1), TODAY) && s.w.mounts == map[HERE := 0];
    hide OnlyAt, HasDir, Put, MakeDir;
    s := Then(cfg, Quiet, s, DaemonDo(Io.Done));
  }

  /** After the one transfer of a batch, before the manifest is written, the drive is swapped for another one that has a
      directory of today. */
  lemma Misplaced(cfg: Config) returns (s: System, n: Name)
    ensures FromStart(cfg, Quiet, s) && OnlyAt(s.w.stores, n, Volume(0))
    ensures ManifestAt(s.w.stores, Volume(1), TODAY) == [Line(n, cfg.sha([7]))]
  {
    hide FromStart, OnlyAt;
    s, n := ManifestDue(cfg);
    var line := Line(n, cfg.sha([7]));
    s := DetachDrive(cfg, s, 0);
    s := AttachDrive(cfg, Quiet, s, 1);
    ManifestStep(cfg, s, s.daemon.b, line);
    var before := s.w;
    hide Step;
    s := Then(cfg, Quiet, s, DaemonDo(Io.Done));
    FewerCopies(before.stores, s.w.stores, n, Volume(0));
  }

  lemma FewerCopies(stores: map<Place, Store>, stores': map<Place, Store>, n: Name, p: Place)
    requires OnlyAt(stores, n, p) && forall q, path, c :: At(stores', q, path, c) ==> At(stores, q, path, c)
    ensures OnlyAt(stores', n, p)
  {
    hide At;
  }

  lemma SwapFalsifies(cfg: Config)
    ensures !AlwaysTruthful(cfg, true)
  {
    var s, n := Misplaced(cfg);
    var es :| Built(cfg, Quiet, es) && Run(cfg, START, es) == s;
    hide Run, AdmissibleRun, QuietRun;
    assert FreshSensor(START) && ManifestsTrue(cfg, START.w);
    var line := Line(n, cfg.sha([7]));
    assert line in ManifestAt(s.w.stores, Volume(1), TODAY);
    assert !LineTrue(cfg, s.w, Volume(1), TODAY, line);
    assert !LinesTrue(cfg, s.w, Volume(1), TODAY, ManifestAt(s.w.stores, Volume(1), TODAY));
  }

  /** Every manifest line stays true in every run of a fresh sensor if and only if volumes are not swapped under a
      running batch. */
  lemma AlwaysTruthfulIff(cfg: Config, swaps: bool)
    requires Sane(cfg)
    ensures AlwaysTruthful(cfg, swaps) <==> !swaps
  {
    if swaps {
      SwapFalsifies(cfg);
    } else {
      forall s, es | FreshSensor(s) && ManifestsTrue(cfg, s.w) && AdmissibleRun(cfg, s, es) && SteadyRun(cfg, s, es)
        ensures ManifestsTrue(cfg, Run(cfg, s, es).w)
      {
        FreshSensorIsGood(cfg, s);
        assert Truthful(cfg, s);
        hide Run, Inv, AdmissibleRun, SteadyRun, ManifestsTrue;
        ManifestsStayTrue(cfg, s, es);
      }
    }
  }

  // ---------------------------------------------------------------- the total needs batches that end

  /** After a transfer has succeeded, looking at its source raises. */
  lemma LoggingRaises(cfg: Config) returns (es: seq<Event>)
    ensures Built(cfg, Quiet, es) && Run(cfg, START, es).daemon == Idle(false)
    ensures es != [] && es[|es| - 1].DaemonDo? && !NoneCutShort(cfg, START, es)
  {
    hide FromStart;
    var s, n := PreparedCapture(cfg, 0);
    s := AttachDrive(cfg, Quiet, s, 0);
    s := StartExport(cfg, s, n);
    s := CopyOver(cfg, s, n);
    var init := EventsTo(cfg, s);
    var e := DaemonDo(Raise(None));
    es := init + [e];
    assert es[..|init|] == init && es[|init|] == e;
    AdmissibleSnoc(cfg, START, init, e);
    RunSnoc(cfg, START, init, e);
    assert QuietRun(cfg, START, es);
    hide Run, AdmissibleRun, QuietRun;
    assert CutsShort(s, e) && Successes(s.daemon) == 1;
  }

  lemma EventsTo(cfg: Config, s: System) returns (es: seq<Event>)
    requires FromStart(cfg, Quiet, s)
    ensures Built(cfg, Quiet, es) && Run(cfg, START, es) == s
  {
    es :| Built(cfg, Quiet, es) && Run(cfg, START, es) == s;
  }

  /** With these turns the daemon of a fresh sensor is back at the top of the loop and its total is below the number of
      transfers. */
  ghost predicate FallsShort(cfg: Config, turns: seq<Turn>) {
    var trace := Trace(TheDaemon, Following(turns), 0, |turns|);
    && AdmissibleRun(cfg, START, trace) && Run(cfg, START, trace).daemon == Idle(false)
    && Booked(cfg, START, trace) < Exported(cfg, START, trace)
  }

  /** On every host there is such a schedule. */
  lemma {:induction false} TotalCanFallShort(cfg: Config) returns (turns: seq<Turn>)
    ensures FallsShort(cfg, turns)
  {
    var es := LoggingRaises(cfg);
    hide Run, AdmissibleRun, NoneCutShort, Booked, Exported;
    BookedIsRightIff(cfg, START, es);
    var rest;
    turns, rest := RunIsPlayed(es);
    assert Trace(TheDaemon, Following(turns), 0, |turns|) + rest == Trace(TheDaemon, Following(turns), 0, |turns|);
  }
}
