/** When every call of the daemon works and nobody swaps volumes under it, a batch drains the backlog of everything that
    has settled. */
module Draining {
  import opened Hashing
  import opened Names
  import opened Files
  import opened Pipeline
  import opened Frames
  import opened Order
  import opened Safety
  import opened Manifests
  import opened Batches
  import opened Histories

  /** The outcome that a call of transfer_file has when it works: a move renames or copies what it reads, a copy holds what
      was read, and everything else is done. */
  ghost predicate TransferWorks(cfg: Config, w: World, job: Job, t: Transfer, o: Io) {
    match t
    case Move =>
      job.name in w.backlog ==>
        (o.Done? && SameDevice(cfg, Resolve(w, job.mount))) || o == Wrote(w.backlog[job.name].content)
    case Copy => job.name in w.backlog ==> o == Wrote(w.backlog[job.name].content)
    case _ => o.Done?
  }

  /** And every other call of the daemon. */
  ghost predicate CallWorks(cfg: Config, s: System, e: Event) {
    && !e.DaemonKilled?
    && (e.DaemonDo? ==>
          match s.daemon
          case Idle(_) => e.d.Seen?
          case Listing(_) => e.d.Listed?
          case Moving(b, t) => if Returned(t) then e.d.Done? else TransferWorks(cfg, s.w, JobOf(b), t, e.d)
          case _ => e.d.Done?)
  }

  ghost predicate WorkingRun(cfg: Config, s: System, es: seq<Event>) {
    es != [] ==> WorkingRun(cfg, s, es[..|es| - 1]) && CallWorks(cfg, Run(cfg, s, es[..|es| - 1]), es[|es| - 1])
  }

  lemma WorkingSplit(cfg: Config, s: System, es: seq<Event>)
    requires WorkingRun(cfg, s, es) && es != []
    ensures WorkingRun(cfg, s, es[..|es| - 1]) && CallWorks(cfg, Run(cfg, s, es[..|es| - 1]), es[|es| - 1])
  {
  }

  /** No transfer has failed or is about to, and the copy under way is good. */
  ghost predicate GoesWell(w: World, d: Daemon) {
    && (HasBatch(d) ==> d.b.failed == [])
    && (d.Moving? ==>
          && !d.t.Failed? && !d.t.FailedAfterRename? && !d.t.UnlinkCopy?
          && (d.t.HashSource? || d.t.HashCopy? ==>
                var job := JobOf(d.b);
                job.name in w.backlog
                && At(w.stores, Resolve(w, job.mount), Path(job.date, job.name), w.backlog[job.name].content)))
  }

  /** The part about one transfer. */
  ghost predicate TransferWell(w: World, job: Job, t: Transfer) {
    && !t.Failed? && !t.FailedAfterRename? && !t.UnlinkCopy?
    && (t.HashSource? || t.HashCopy? ==>
          job.name in w.backlog
          && At(w.stores, Resolve(w, job.mount), Path(job.date, job.name), w.backlog[job.name].content))
  }

  lemma MoveGoesWell(cfg: Config, w: World, job: Job, o: Io)
    requires TransferOk(cfg, w, job.name, Move) && Delivered(cfg, w, job, Move) && TransferWorks(cfg, w, job, Move, o)
    ensures var (w', t') := TransferStep(cfg, w, job, Move, o); TransferWell(w', job, t')
  {
  }

  lemma CopyGoesWell(cfg: Config, w: World, job: Job, o: Io)
    requires TransferOk(cfg, w, job.name, Copy) && Delivered(cfg, w, job, Copy) && TransferWorks(cfg, w, job, Copy, o)
    ensures var (w', t') := TransferStep(cfg, w, job, Copy, o); TransferWell(w', job, t')
  {
    PutIsAt(w, Resolve(w, job.mount), Path(job.date, job.name), w.backlog[job.name].content, job.date);
    hide Put, HasDir, At;
  }

  lemma CallGoesWell(cfg: Config, w: World, job: Job, t: Transfer, o: Io)
    requires TransferOk(cfg, w, job.name, t) && Delivered(cfg, w, job, t) && TransferWell(w, job, t)
    requires TransferWorks(cfg, w, job, t, o) && !t.Move? && !t.Copy?
    ensures var (w', t') := TransferStep(cfg, w, job, t, o); TransferWell(w', job, t')
  {
    hide MakeDir, Remove, Stored, BadCopyAt;
  }

  lemma TransferGoesWell(cfg: Config, s: System, b: Batch, t: Transfer, o: Io)
    requires Inv(cfg, s) && s.daemon == Moving(b, t) && !Returned(t) && Truthful(cfg, s) && GoesWell(s.w, s.daemon)
    requires TransferWorks(cfg, s.w, JobOf(b), t, o)
    ensures GoesWell(Step(cfg, s, DaemonDo(o)).w, Step(cfg, s, DaemonDo(o)).daemon)
  {
    MovingIsGood(cfg, s, b, t);
    MovingStep(cfg, s, b, t, o);
    assert TransferWell(s.w, JobOf(b), t) && b.failed == [];
    hide Inv, Truthful, Delivered, TransferOk, TransferWorks, TransferStep, Ordered, Kept, Step, At;
    match t
    case Move => MoveGoesWell(cfg, s.w, JobOf(b), o);
    case Copy => CopyGoesWell(cfg, s.w, JobOf(b), o);
    case _ => CallGoesWell(cfg, s.w, JobOf(b), t, o);
  }

  lemma OffTransferGoesWell(cfg: Config, s: System, o: Io)
    requires CallWorks(cfg, s, DaemonDo(o)) && GoesWell(s.w, s.daemon) && (s.daemon.Moving? ==> Returned(s.daemon.t))
    ensures GoesWell(Step(cfg, s, DaemonDo(o)).w, Step(cfg, s, DaemonDo(o)).daemon)
  {
    hide TransferStep, TransferWorks, SortNames, EntryFor, At;
  }

  /** Everyone else leaves the good copy alone. */
  lemma OthersLeaveWell(cfg: Config, s: System, e: Event)
    requires Dependable(cfg) && Inv(cfg, s) && Admissible(cfg, s, e) && !e.DaemonDo? && SteadyEvent(s, e)
    requires GoesWell(s.w, s.daemon)
    ensures GoesWell(Step(cfg, s, e).w, Step(cfg, s, e).daemon)
  {
    StepLeavesCopies(cfg, s, e);
    if InBatch(s.daemon) {
      SteadyResolve(cfg, s, e);
    }
    var s' := Step(cfg, s, e);
    assert s'.daemon == s.daemon || s'.daemon.Idle?;
    hide Step, OrderInv, AllKept, CopyOk, DaemonOk, CopiesFinal, At, Admissible;
    if s'.daemon.Moving? && (s.daemon.t.HashSource? || s.daemon.t.HashCopy?) {
      var n := JobOf(s.daemon.b).name;
      assert n in s.w.captured && n !in s.w.ring;
    }
  }

  lemma StepGoesWell(cfg: Config, s: System, e: Event)
    requires Dependable(cfg) && Inv(cfg, s) && Admissible(cfg, s, e) && Truthful(cfg, s) && SteadyEvent(s, e)
    requires CallWorks(cfg, s, e) && GoesWell(s.w, s.daemon)
    ensures GoesWell(Step(cfg, s, e).w, Step(cfg, s, e).daemon)
  {
    if e.DaemonDo? && s.daemon.Moving? && !Returned(s.daemon.t) {
      assert TransferWorks(cfg, s.w, JobOf(s.daemon.b), s.daemon.t, e.d);
      hide Inv, Truthful, GoesWell, Step, Admissible, TransferWorks;
      TransferGoesWell(cfg, s, s.daemon.b, s.daemon.t, e.d);
    } else if e.DaemonDo? {
      hide Inv, Truthful, GoesWell, Step, Admissible, CallWorks;
      OffTransferGoesWell(cfg, s, e.d);
    } else {
      hide Inv, Truthful, GoesWell, Step, Admissible, CallWorks;
      OthersLeaveWell(cfg, s, e);
    }
  }

  lemma {:induction false} RunGoesWell(cfg: Config, s: System, es: seq<Event>)
    requires Sane(cfg) && Inv(cfg, s) && Truthful(cfg, s) && GoesWell(s.w, s.daemon)
    requires AdmissibleRun(cfg, s, es) && SteadyRun(cfg, s, es) && WorkingRun(cfg, s, es)
    ensures GoesWell(Run(cfg, s, es).w, Run(cfg, s, es).daemon)
  {
    hide *;
    if es == [] {
      RunNil(cfg, s);
    } else {
      SplitRun(cfg, s, es);
      SteadySplit(cfg, s, es);
      WorkingSplit(cfg, s, es);
      SaneIsDependable(cfg);
      var k := |es| - 1;
      RunGoesWell(cfg, s, es[..k]);
      RunKeeps(cfg, s, es[..k]);
      ManifestsStayTrue(cfg, s, es[..k]);
      StepGoesWell(cfg, Run(cfg, s, es[..k]), es[k]);
    }
  }

  lemma {:induction false} WorkingAt(cfg: Config, s: System, es: seq<Event>, j: nat)
    requires WorkingRun(cfg, s, es) && j < |es|
    ensures CallWorks(cfg, Run(cfg, s, es[..j]), es[j])
  {
    WorkingSplit(cfg, s, es);
    hide WorkingRun, CallWorks, Run;
    var last := |es| - 1;
    if j < last {
      WorkingAt(cfg, s, es[..last], j);
      assert es[..last][..j] == es[..j] && es[..last][j] == es[j];
    }
  }

  /** File `n` was looked at, its mtime could be read, and it had been written to within one and a half rotations. */
  ghost predicate WasTooYoung(cfg: Config, s: System, es: seq<Event>, n: Name) {
    exists j: nat :: LookedYoung(cfg, s, es, n, j) && es[j].d.Done?
  }

  lemma LookWorked(cfg: Config, s: System, es: seq<Event>, n: Name, j: nat)
    requires LookedYoung(cfg, s, es, n, j) && WorkingRun(cfg, s, es)
    ensures WasTooYoung(cfg, s, es, n)
  {
    WorkingAt(cfg, s, es, j);
    hide WorkingRun, Run;
  }

  /** Over every run without swaps under a batch in which the calls of the daemon work, a finished batch has evacuated
      every file that was in the backlog when it was listed, except those that it found too young when it looked at
      them; none has failed. */
  lemma BacklogDrains(cfg: Config, s: System, es: seq<Event>, b: Batch) returns (k: nat)
    requires Sane(cfg) && Inv(cfg, s) && Truthful(cfg, s) && !HasBatch(s.daemon)
    requires AdmissibleRun(cfg, s, es) && SteadyRun(cfg, s, es) && WorkingRun(cfg, s, es)
    requires Run(cfg, s, es).daemon == Finished(b)
    ensures b.failed == [] && Origin(cfg, s, es, b, k)
    ensures forall n :: n in Run(cfg, s, es[..k]).w.backlog ==>
              (n in NamesOf(b.transferred) && Evacuated(Run(cfg, s, es).w, n)) || WasTooYoung(cfg, s, es, n)
  {
    assert Accounted(s.w, s.daemon) && GoesWell(s.w, s.daemon);
    FinishedHasBatch(b);
    hide Sane, Inv, Truthful, AdmissibleRun, SteadyRun, WorkingRun, Run, Accounted, Origin, Evacuated, HasBatch, NamesOf;
    hide LookedYoung, WasTooYoung;
    RunGoesWell(cfg, s, es);
    k := BatchConserves(cfg, s, es, b);
    NoneFailed(Run(cfg, s, es).w, b);
    forall n | n in b.skipped ensures WasTooYoung(cfg, s, es, n) {
      var k', j := SkippedWereYoung(cfg, s, es, n);
      LookWorked(cfg, s, es, n, j);
    }
  }

  lemma NoneFailed(w: World, b: Batch)
    requires GoesWell(w, Finished(b))
    ensures b.failed == []
  {
  }
}
