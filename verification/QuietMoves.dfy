/** If renames within a device do not raise, the daemon's shutil.move copies only if a volume is attached between the
    comparison of devices and the move. Runs in which that does not happen lose nothing, however bad unverified copies by
    the daemon are. */
module QuietMoves {
  import opened Names
  import opened Files
  import opened Pipeline
  import opened Frames
  import opened Order
  import opened Safety
  import opened Guarantees

  /** A daemon about to move has the source and the destination on one device. */
  ghost predicate MoveIsLocal(cfg: Config, s: System) {
    s.daemon.Moving? && s.daemon.t.Move? ==> SameDevice(cfg, Resolve(s.w, s.daemon.b.mount))
  }

  /** No volume is attached at its destination while the daemon is about to move. */
  ghost predicate QuietEvent(s: System, e: Event) {
    s.daemon.Moving? && s.daemon.t.Move? && e.Attach? ==> e.at != s.daemon.b.mount
  }

  ghost predicate QuietRun(cfg: Config, s: System, es: seq<Event>) {
    es != [] ==> QuietRun(cfg, s, es[..|es| - 1]) && QuietEvent(Run(cfg, s, es[..|es| - 1]), es[|es| - 1])
  }

  lemma MoveStarts(cfg: Config, w: World, job: Job, t: Transfer, o: Io)
    requires TransferStep(cfg, w, job, t, o).1.Move?
    ensures SameDevice(cfg, Resolve(w, job.mount)) && TransferStep(cfg, w, job, t, o).0 == w
  {
  }

  lemma DaemonStepMoveIsLocal(cfg: Config, s: System, o: Io)
    ensures MoveIsLocal(cfg, Step(cfg, s, DaemonDo(o)))
  {
    hide TransferStep;
    if s.daemon.Moving? {
      var job, t := JobOf(s.daemon.b), s.daemon.t;
      if TransferStep(cfg, s.w, job, t, o).1.Move? {
        MoveStarts(cfg, s.w, job, t, o);
      }
    }
  }

  lemma StepMoveIsLocal(cfg: Config, s: System, e: Event)
    requires MoveIsLocal(cfg, s) && QuietEvent(s, e)
    ensures MoveIsLocal(cfg, Step(cfg, s, e))
  {
    if e.DaemonDo? {
      DaemonStepMoveIsLocal(cfg, s, e.d);
    } else if e.MoverDo? {
      MoverKeepsHistory(cfg, s.w, s.mover, e.m);
      hide MoverStep;
    }
  }

  /** The same host, on the assumption that those copies are exact. */
  function Exact(cfg: Config): Config {
    cfg.(moveExact := true)
  }

  lemma MoverStepSame(cfg: Config, w: World, m: Mover, o: Io)
    ensures MoverStep(Exact(cfg), w, m, o) == MoverStep(cfg, w, m, o)
  {
  }

  lemma TransferStepSame(cfg: Config, w: World, job: Job, t: Transfer, o: Io)
    ensures TransferStep(Exact(cfg), w, job, t, o) == TransferStep(cfg, w, job, t, o)
  {
  }

  lemma DaemonStepSame(cfg: Config, w: World, d: Daemon, o: Io)
    ensures DaemonStep(Exact(cfg), w, d, o) == DaemonStep(cfg, w, d, o)
  {
    if d.Moving? {
      TransferStepSame(cfg, w, JobOf(d.b), d.t, o);
    }
    hide TransferStep;
  }

  lemma StepSame(cfg: Config, s: System, e: Event)
    ensures Step(Exact(cfg), s, e) == Step(cfg, s, e)
  {
    if e.MoverDo? {
      MoverStepSame(cfg, s.w, s.mover, e.m);
    } else if e.DaemonDo? {
      DaemonStepSame(cfg, s.w, s.daemon, e.d);
    }
    hide MoverStep, DaemonStep;
  }

  lemma AdmissibleSame(cfg: Config, s: System, e: Event)
    requires cfg.daemonRenames && Admissible(cfg, s, e) && MoveIsLocal(cfg, s)
    ensures Admissible(Exact(cfg), s, e)
  {
  }

  lemma {:induction false} QuietRunIsExact(cfg: Config, s: System, es: seq<Event>)
    requires cfg.daemonRenames && MoveIsLocal(cfg, s) && AdmissibleRun(cfg, s, es) && QuietRun(cfg, s, es)
    ensures AdmissibleRun(Exact(cfg), s, es) && Run(Exact(cfg), s, es) == Run(cfg, s, es)
    ensures MoveIsLocal(cfg, Run(cfg, s, es))
  {
    if es != [] {
      var k := |es| - 1;
      SplitRun(cfg, s, es);
      assert QuietRun(cfg, s, es[..k]) && QuietEvent(Run(cfg, s, es[..k]), es[k]);
      assert es == es[..k] + [es[k]];
      hide *;
      var s' := Run(cfg, s, es[..k]);
      QuietRunIsExact(cfg, s, es[..k]);
      AdmissibleSame(cfg, s', es[k]);
      AdmissibleSnoc(Exact(cfg), s, es[..k], es[k]);
      RunSnoc(Exact(cfg), s, es[..k], es[k]);
      StepSame(cfg, s', es[k]);
      StepMoveIsLocal(cfg, s', es[k]);
    }
  }

  lemma PrefixIsQuiet(cfg: Config, s: System, es: seq<Event>, k: nat)
    requires QuietRun(cfg, s, es) && k <= |es|
    ensures QuietRun(cfg, s, es[..k])
  {
    if k == |es| {
      assert es[..k] == es;
    } else {
      PrefixIsQuiet(cfg, s, es[..|es| - 1], k);
      assert es[..|es| - 1][..k] == es[..k];
    }
  }

  lemma InvSame(cfg: Config, s: System)
    requires Inv(cfg, s)
    ensures Inv(Exact(cfg), s)
  {
    hide Ordered, StrictPart, Kept, Stored;
  }

  /** No capture is lost in a run in which no volume is attached between the comparison of devices and the move, even
      if the daemon's unverified copies may be wrong, as long as renames within a device do not raise. */
  lemma NoCaptureLostWhenQuiet(cfg: Config, s: System, es: seq<Event>, k: nat, n: Name)
    requires Cautious(cfg) && cfg.sharedDevice && cfg.moverRenames && cfg.moverExact && cfg.daemonRenames
    requires Inv(cfg, s) && MoveIsLocal(cfg, s)
    requires AdmissibleRun(cfg, s, es) && QuietRun(cfg, s, es) && k <= |es|
    requires n in Run(cfg, s, es[..k]).w.original
    ensures Held(Run(cfg, s, es).w, n, Run(cfg, s, es[..k]).w.original[n])
  {
    assert Sane(Exact(cfg));
    hide *;
    InvSame(cfg, s);
    QuietRunIsExact(cfg, s, es);
    AdmissiblePrefix(cfg, s, es, k);
    PrefixIsQuiet(cfg, s, es, k);
    QuietRunIsExact(cfg, s, es[..k]);
    NoCaptureLost(Exact(cfg), s, es, k, n);
  }
}
