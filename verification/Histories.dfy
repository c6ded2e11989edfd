/** What must have happened for things to be as they are: why a file was skipped, that a finished batch has written its
    manifest and its log, and whose lines a manifest holds. */
module Histories {
  import opened Hashing
  import opened Names
  import opened Files
  import opened Sorting
  import opened Pipeline
  import opened Frames
  import opened Order
  import opened Safety
  import opened Manifests
  import opened Batches
  import opened Logs

  // ---------------------------------------------------------------- skipped files

  /** Event number `j` looked at file `n` for this batch and could not read its mtime, or found that it had been written
      to within one and a half rotations. */
  ghost predicate LookedYoung(cfg: Config, s: System, es: seq<Event>, n: Name, j: nat) {
    && j < |es| && es[j].DaemonDo?
    && var s' := Run(cfg, s, es[..j]);
       && s'.daemon.AtFile? && s'.daemon.b.next < |s'.daemon.b.listing| && s'.daemon.b.listing[s'.daemon.b.next] == n
       && (|| !es[j].d.Done?
           || (n in s'.w.backlog && 2 * (s'.w.clock - s'.w.backlog[n].mtime) < 3 * cfg.rotateSeconds * 1_000_000_000))
  }

  lemma LookedLater(cfg: Config, s: System, es: seq<Event>, last: nat, n: Name, j: nat)
    requires last <= |es| && LookedYoung(cfg, s, es[..last], n, j)
    ensures LookedYoung(cfg, s, es, n, j)
  {
    assert es[..last][..j] == es[..j];
    hide Run;
  }

  /** A file becomes one of the skipped ones by such a look only. */
  lemma SkippedStep(cfg: Config, s: System, e: Event, n: Name)
    requires Inv(cfg, s) && HasBatch(s.daemon) && HasBatch(Step(cfg, s, e).daemon) && !(e.DaemonDo? && s.daemon.Listing?)
    requires n in Step(cfg, s, e).daemon.b.skipped && n !in s.daemon.b.skipped
    ensures e.DaemonDo? && s.daemon.AtFile? && s.daemon.b.next < |s.daemon.b.listing|
    ensures s.daemon.b.listing[s.daemon.b.next] == n
    ensures !e.d.Done? ||
            (n in s.w.backlog && 2 * (s.w.clock - s.w.backlog[n].mtime) < 3 * cfg.rotateSeconds * 1_000_000_000)
  {
    hide TransferStep, MoverStep, EntryFor, OrderInv, Kept, CopyOk, TransferOk, StrictlySorted;
  }

  lemma LookedNow(cfg: Config, s: System, es: seq<Event>, n: Name)
    requires es != [] && Inv(cfg, Run(cfg, s, es[..|es| - 1])) && HasBatch(Run(cfg, s, es[..|es| - 1]).daemon)
    requires Run(cfg, s, es) == Step(cfg, Run(cfg, s, es[..|es| - 1]), es[|es| - 1]) && HasBatch(Run(cfg, s, es).daemon)
    requires !(es[|es| - 1].DaemonDo? && Run(cfg, s, es[..|es| - 1]).daemon.Listing?)
    requires n in Run(cfg, s, es).daemon.b.skipped && n !in Run(cfg, s, es[..|es| - 1]).daemon.b.skipped
    ensures LookedYoung(cfg, s, es, n, |es| - 1)
  {
    hide Run, Step, Inv;
    SkippedStep(cfg, Run(cfg, s, es[..|es| - 1]), es[|es| - 1], n);
  }

  /** Over every run that starts outside a batch: a file is among the skipped ones of a batch only because, after the
      listing of that batch, a look at it failed or found it too young. So a file that was old enough whenever it was
      looked at is never skipped. */
  lemma {:induction false} SkippedWereYoung(cfg: Config, s: System, es: seq<Event>, n: Name) returns (k: nat, j: nat)
    requires Sane(cfg) && Inv(cfg, s) && AdmissibleRun(cfg, s, es) && !HasBatch(s.daemon)
    requires HasBatch(Run(cfg, s, es).daemon) && n in Run(cfg, s, es).daemon.b.skipped
    ensures Origin(cfg, s, es, Run(cfg, s, es).daemon.b, k) && k < j && LookedYoung(cfg, s, es, n, j)
  {
    if es == [] {
      assert false;
    }
    var last := |es| - 1;
    SplitRun(cfg, s, es);
    hide Sane, Inv, AdmissibleRun, Run, Step, Admissible, Origin, LookedYoung;
    var s' := Run(cfg, s, es[..last]);
    if s'.daemon.Listing? && es[last].DaemonDo? {
      ListingStep(cfg, s', es[last].d);
    }
    BatchStep(cfg, s', es[last]);
    RunKeeps(cfg, s, es[..last]);
    if n in s'.daemon.b.skipped {
      k, j := SkippedWereYoung(cfg, s, es[..last], n);
      LookedLater(cfg, s, es, last, n, j);
    } else {
      k := BatchOrigin(cfg, s, es[..last]);
      j := last;
      OriginBefore(cfg, s, es[..last], s'.daemon.b, k);
      LookedNow(cfg, s, es, n);
    }
    OriginLater(cfg, s, es, last, s'.daemon.b, Run(cfg, s, es).daemon.b, k);
  }

  lemma OriginBefore(cfg: Config, s: System, es: seq<Event>, b: Batch, k: nat)
    requires Origin(cfg, s, es, b, k)
    ensures k < |es|
  {
  }

  // ---------------------------------------------------------------- moved files

  /** Event number `j` looked at the next file of the batch, could read its mtime, and found that it had not been written to
      for one and a half rotations. */
  ghost predicate LookedSettled(cfg: Config, s: System, es: seq<Event>, b: Batch, j: nat) {
    && j < |es| && es[j] == DaemonDo(Done)
    && var s' := Run(cfg, s, es[..j]);
       && s'.daemon == AtFile(b) && b.next < |b.listing| && b.listing[b.next] in s'.w.backlog
       && 2 * (s'.w.clock - s'.w.backlog[b.listing[b.next]].mtime) >= 3 * cfg.rotateSeconds * 1_000_000_000
  }

  lemma SettledLater(cfg: Config, s: System, es: seq<Event>, last: nat, b: Batch, j: nat)
    requires last <= |es| && LookedSettled(cfg, s, es[..last], b, j)
    ensures LookedSettled(cfg, s, es, b, j)
  {
    assert es[..last][..j] == es[..j];
    hide Run;
  }

  /** A transfer begins by such a look only. */
  lemma MovingBegins(cfg: Config, s: System, e: Event, b: Batch)
    requires Inv(cfg, s) && Step(cfg, s, e).daemon.Moving? && Step(cfg, s, e).daemon.b == b
    requires !(s.daemon.Moving? && s.daemon.b == b)
    ensures e == DaemonDo(Done) && s.daemon == AtFile(b) && b.next < |b.listing| && b.listing[b.next] in s.w.backlog
    ensures 2 * (s.w.clock - s.w.backlog[b.listing[b.next]].mtime) >= 3 * cfg.rotateSeconds * 1_000_000_000
  {
    hide TransferStep, MoverStep, Settle, SortNames, OrderInv, Kept, CopyOk, TransferOk, StrictlySorted;
  }

  /** Over every run that starts outside a transfer: a file is transferred only after a look that found it settled. */
  lemma {:induction false} MovedWasLookedAt(cfg: Config, s: System, es: seq<Event>, b: Batch) returns (j: nat)
    requires Sane(cfg) && Inv(cfg, s) && AdmissibleRun(cfg, s, es) && !s.daemon.Moving?
    requires Run(cfg, s, es).daemon.Moving? && Run(cfg, s, es).daemon.b == b
    ensures LookedSettled(cfg, s, es, b, j)
  {
    if es == [] {
      assert false;
    }
    var last := |es| - 1;
    SplitRun(cfg, s, es);
    hide Sane, Inv, AdmissibleRun, Run, Step, Admissible;
    var s' := Run(cfg, s, es[..last]);
    if s'.daemon.Moving? && s'.daemon.b == b {
      hide LookedSettled;
      j := MovedWasLookedAt(cfg, s, es[..last], b);
      SettledLater(cfg, s, es, last, b, j);
    } else {
      RunKeeps(cfg, s, es[..last]);
      MovingBegins(cfg, s', es[last], b);
      j := last;
    }
  }

  // ---------------------------------------------------------------- a finished batch has written

  ghost predicate CallAt(cfg: Config, s: System, es: seq<Event>, d: Daemon, k: nat) {
    k < |es| && es[k].DaemonDo? && Run(cfg, s, es[..k]).daemon == d
  }

  lemma CallLater(cfg: Config, s: System, es: seq<Event>, last: nat, d: Daemon, k: nat)
    requires last <= |es| && CallAt(cfg, s, es[..last], d, k)
    ensures CallAt(cfg, s, es, d, k)
  {
    assert es[..last][..k] == es[..k];
  }

  /** How the daemon comes to write its log, and to be done with a batch. */
  lemma BeforeTheEnd(cfg: Config, s: System, e: Event, b: Batch)
    ensures Step(cfg, s, e).daemon == Log(b) && s.daemon != Log(b) && b.transferred != [] ==>
              e.DaemonDo? && s.daemon == Manifest(b)
    ensures Step(cfg, s, e).daemon == Finished(b) && s.daemon != Finished(b) && (b.transferred != [] || b.entries != []) ==>
              e.DaemonDo? && s.daemon == Log(b)
  {
    hide TransferStep, MoverStep, EntryFor, SortNames;
  }

  lemma {:induction false} ManifestBeforeLog(cfg: Config, s: System, es: seq<Event>, b: Batch) returns (i: nat)
    requires !HasBatch(s.daemon) && Run(cfg, s, es).daemon == Log(b) && b.transferred != []
    ensures CallAt(cfg, s, es, Manifest(b), i)
  {
    if es == [] {
      assert false;
    }
    var last := |es| - 1;
    var s' := Run(cfg, s, es[..last]);
    BeforeTheEnd(cfg, s', es[last], b);
    if s'.daemon == Log(b) {
      hide Run;
      i := ManifestBeforeLog(cfg, s, es[..last], b);
      CallLater(cfg, s, es, last, Manifest(b), i);
    } else {
      i := last;
    }
    hide Step;
  }

  lemma {:induction false} LogBeforeFinished(cfg: Config, s: System, es: seq<Event>, b: Batch) returns (j: nat)
    requires !HasBatch(s.daemon) && Run(cfg, s, es).daemon == Finished(b) && (b.transferred != [] || b.entries != [])
    ensures CallAt(cfg, s, es, Log(b), j)
  {
    if es == [] {
      assert false;
    }
    var last := |es| - 1;
    var s' := Run(cfg, s, es[..last]);
    BeforeTheEnd(cfg, s', es[last], b);
    if s'.daemon == Finished(b) {
      hide Run;
      j := LogBeforeFinished(cfg, s, es[..last], b);
      CallLater(cfg, s, es, last, Log(b), j);
    } else {
      j := last;
    }
    hide Step;
  }

  /** Over every run that starts outside a batch: a batch that is done and has anything to report has appended to the log,
      and if that call completed the log at that place gained exactly the entries of the batch, and no other log
      anything. If the batch has transferred anything it has written its manifest before that. */
  lemma BatchHasWritten(cfg: Config, s: System, es: seq<Event>, b: Batch) returns (i: nat, j: nat)
    requires !HasBatch(s.daemon) && Run(cfg, s, es).daemon == Finished(b)
    ensures b.transferred != [] || b.entries != [] ==>
              && CallAt(cfg, s, es, Log(b), j)
              && (es[j].d.Done? ==>
                    var w, w' := Run(cfg, s, es[..j]).w, Run(cfg, s, es[..j + 1]).w;
                    var p := Resolve(w, b.mount);
                    && LogAt(w', p) == LogAt(w, p) + b.entries
                    && forall q :: q != p ==> LogAt(w', q) == LogAt(w, q))
    ensures b.transferred != [] ==> i < j && CallAt(cfg, s, es, Manifest(b), i)
  {
    i, j := 0, 0;
    if b.transferred != [] || b.entries != [] {
      j := LogBeforeFinished(cfg, s, es, b);
      LogCall(cfg, s, es, b, j);
      if b.transferred != [] {
        CallIs(cfg, s, es, Log(b), j);
        i := ManifestBeforeLog(cfg, s, es[..j], b);
        CallIs(cfg, s, es[..j], Manifest(b), i);
        CallLater(cfg, s, es, j, Manifest(b), i);
      }
    }
    hide Run, LogAt;
  }

  lemma CallIs(cfg: Config, s: System, es: seq<Event>, d: Daemon, k: nat)
    requires CallAt(cfg, s, es, d, k)
    ensures k < |es| && Run(cfg, s, es[..k]).daemon == d
  {
  }

  lemma LogDone(cfg: Config, s: System, b: Batch)
    requires s.daemon == Log(b)
    ensures var w' := Step(cfg, s, DaemonDo(Done)).w;
            var p := Resolve(s.w, b.mount);
            && LogAt(w', p) == LogAt(s.w, p) + b.entries
            && forall q :: q != p ==> LogAt(w', q) == LogAt(s.w, q)
  {
    hide Step, LogAt;
    var w' := Step(cfg, s, DaemonDo(Done)).w;
    forall q ensures LogAt(w', q) == LogAt(s.w, q) + LogPiece(s, DaemonDo(Done), q) {
      StepLog(cfg, s, DaemonDo(Done), q);
    }
  }

  lemma LogCall(cfg: Config, s: System, es: seq<Event>, b: Batch, j: nat)
    requires CallAt(cfg, s, es, Log(b), j)
    ensures es[j].d.Done? ==>
              var w, w' := Run(cfg, s, es[..j]).w, Run(cfg, s, es[..j + 1]).w;
              var p := Resolve(w, b.mount);
              && LogAt(w', p) == LogAt(w, p) + b.entries
              && forall q :: q != p ==> LogAt(w', q) == LogAt(w, q)
  {
    hide Run, Step, LogAt, Resolve;
    assert es[..j + 1] == es[..j] + [es[j]];
    RunSnoc(cfg, s, es[..j], es[j]);
    if es[j].d.Done? {
      LogDone(cfg, Run(cfg, s, es[..j]), b);
      assert es[j] == DaemonDo(Done);
    }
  }

  // ---------------------------------------------------------------- whose lines a manifest holds

  /** The event writes the manifest at this place and date for batch `b`. */
  ghost predicate WritesManifest(s: System, e: Event, p: Place, d: Date) {
    && e.DaemonDo? && s.daemon.Manifest? && (e.d.Done? || e.d.Torn?)
    && Resolve(s.w, s.daemon.b.mount) == p && s.daemon.b.date == d && HasDir(s.w, p, d)
  }

  lemma TransferLeavesManifest(cfg: Config, s: System, o: Io, p: Place, d: Date)
    requires !s.daemon.Manifest?
    ensures ManifestAt(Step(cfg, s, DaemonDo(o)).w.stores, p, d) == ManifestAt(s.w.stores, p, d)
  {
    if s.daemon.Moving? {
      TransferLeavesManifests(cfg, s.w, JobOf(s.daemon.b), s.daemon.t, o);
    }
    hide TransferStep;
  }

  lemma MoverLeavesManifest(cfg: Config, s: System, o: Io, p: Place, d: Date)
    ensures ManifestAt(Step(cfg, s, MoverDo(o)).w.stores, p, d) == ManifestAt(s.w.stores, p, d)
  {
    if s.mover.Routed? {
      MoverMoveTouches(cfg, s.w, s.mover.target, s.mover.to, s.mover.date, o);
    }
    hide MoverMove;
  }

  /** A step leaves a manifest alone, or writes to it the lines of the batch, sorted, or the first of them. */
  lemma ManifestStep(cfg: Config, s: System, e: Event, p: Place, d: Date)
    ensures var w' := Step(cfg, s, e).w;
            ManifestAt(w'.stores, p, d) ==
            if WritesManifest(s, e, p, d) then FirstLines(SortBy(ByName(), s.daemon.b.transferred), e.d)
            else ManifestAt(s.w.stores, p, d)
  {
    if e.MoverDo? {
      MoverLeavesManifest(cfg, s, e.m, p, d);
      hide MoverStep;
    } else if e.DaemonDo? {
      if !s.daemon.Manifest? {
        TransferLeavesManifest(cfg, s, e.d, p, d);
        hide DaemonStep;
      }
    }
    hide SortBy, FirstLines;
  }

  ghost predicate WriteAt(cfg: Config, s: System, es: seq<Event>, p: Place, d: Date, j: nat) {
    j < |es| && WritesManifest(Run(cfg, s, es[..j]), es[j], p, d)
  }

  lemma WriteBefore(cfg: Config, s: System, es: seq<Event>, last: nat, p: Place, d: Date, j: nat)
    requires j < last <= |es|
    ensures WriteAt(cfg, s, es, p, d, j) <==> WriteAt(cfg, s, es[..last], p, d, j)
  {
    hide WritesManifest, Run;
    assert es[..last][..j] == es[..j];
  }

  /** Event number `k` was the last to write this manifest, and the manifest holds what it wrote. */
  ghost predicate LastWriter(cfg: Config, s: System, es: seq<Event>, p: Place, d: Date, k: nat) {
    && WriteAt(cfg, s, es, p, d, k) && (forall j: nat :: k < j ==> !WriteAt(cfg, s, es, p, d, j))
    && ManifestAt(Run(cfg, s, es).w.stores, p, d) == LinesOf(cfg, s, es, k)
  }

  /** The lines that event number `k` writes, if it writes a manifest. */
  ghost function LinesOf(cfg: Config, s: System, es: seq<Event>, k: nat): seq<Line> {
    if k < |es| && es[k].DaemonDo? && Run(cfg, s, es[..k]).daemon.Manifest?
    then FirstLines(SortBy(ByName(), Run(cfg, s, es[..k]).daemon.b.transferred), es[k].d) else []
  }

  ghost predicate NeverWritten(cfg: Config, s: System, es: seq<Event>, p: Place, d: Date) {
    && (forall j: nat :: !WriteAt(cfg, s, es, p, d, j))
    && ManifestAt(Run(cfg, s, es).w.stores, p, d) == ManifestAt(s.w.stores, p, d)
  }

  lemma WriteInRange(cfg: Config, s: System, es: seq<Event>, p: Place, d: Date, j: nat)
    requires WriteAt(cfg, s, es, p, d, j)
    ensures j < |es|
  {
  }

  lemma NeverWrittenSnoc(cfg: Config, s: System, es: seq<Event>, p: Place, d: Date)
    requires es != [] && NeverWritten(cfg, s, es[..|es| - 1], p, d) && !WriteAt(cfg, s, es, p, d, |es| - 1)
    requires ManifestAt(Run(cfg, s, es).w.stores, p, d) == ManifestAt(Run(cfg, s, es[..|es| - 1]).w.stores, p, d)
    ensures NeverWritten(cfg, s, es, p, d)
  {
    hide Run, WriteAt, ManifestAt;
    forall j: nat ensures !WriteAt(cfg, s, es, p, d, j) {
      if WriteAt(cfg, s, es, p, d, j) {
        WriteInRange(cfg, s, es, p, d, j);
        WriteBefore(cfg, s, es, |es| - 1, p, d, j);
      }
    }
  }

  lemma SameLines(cfg: Config, s: System, es: seq<Event>, last: nat, k: nat)
    requires k < last <= |es|
    ensures LinesOf(cfg, s, es[..last], k) == LinesOf(cfg, s, es, k)
  {
    hide Run, SortBy, FirstLines;
    assert es[..last][..k] == es[..k];
  }

  lemma NoLaterWrite(cfg: Config, s: System, es: seq<Event>, init: seq<Event>, p: Place, d: Date, k: nat, j: nat)
    requires es != [] && init == es[..|es| - 1] && !WriteAt(cfg, s, es, p, d, |es| - 1) && k < j
    requires forall x: nat :: k < x ==> !WriteAt(cfg, s, init, p, d, x)
    ensures !WriteAt(cfg, s, es, p, d, j)
  {
    hide WriteAt;
    if WriteAt(cfg, s, es, p, d, j) {
      WriteInRange(cfg, s, es, p, d, j);
      WriteBefore(cfg, s, es, |es| - 1, p, d, j);
    }
  }

  lemma LastWriterSnoc(cfg: Config, s: System, es: seq<Event>, p: Place, d: Date, k: nat)
    requires es != [] && LastWriter(cfg, s, es[..|es| - 1], p, d, k) && !WriteAt(cfg, s, es, p, d, |es| - 1)
    requires ManifestAt(Run(cfg, s, es).w.stores, p, d) == ManifestAt(Run(cfg, s, es[..|es| - 1]).w.stores, p, d)
    ensures LastWriter(cfg, s, es, p, d, k)
  {
    hide Run, WriteAt, ManifestAt, LinesOf;
    WriteInRange(cfg, s, es[..|es| - 1], p, d, k);
    WriteBefore(cfg, s, es, |es| - 1, p, d, k);
    SameLines(cfg, s, es, |es| - 1, k);
    forall j: nat | k < j ensures !WriteAt(cfg, s, es, p, d, j) {
      NoLaterWrite(cfg, s, es, es[..|es| - 1], p, d, k, j);
    }
  }

  lemma LinesNow(cfg: Config, s: System, es: seq<Event>, p: Place, d: Date)
    requires es != [] && WritesManifest(Run(cfg, s, es[..|es| - 1]), es[|es| - 1], p, d)
    ensures var s', e := Run(cfg, s, es[..|es| - 1]), es[|es| - 1];
            LinesOf(cfg, s, es, |es| - 1) == FirstLines(SortBy(ByName(), s'.daemon.b.transferred), e.d)
  {
    hide Run, SortBy, FirstLines;
  }

  /** Over every run, a manifest holds the lines, or the first lines, of the batch that wrote it last; one that no batch has
      written is as it was. */
  lemma {:induction false} ManifestIsLastBatch(cfg: Config, s: System, es: seq<Event>, p: Place, d: Date)
    returns (k: Option<nat>)
    ensures k.Some? ==> LastWriter(cfg, s, es, p, d, k.value)
    ensures k.None? ==> NeverWritten(cfg, s, es, p, d)
  {
    if es == [] {
      k := None;
    } else {
      var last := |es| - 1;
      var s' := Run(cfg, s, es[..last]);
      ManifestStep(cfg, s', es[last], p, d);
      assert Run(cfg, s, es) == Step(cfg, s', es[last]);
      assert WriteAt(cfg, s, es, p, d, last) <==> WritesManifest(s', es[last], p, d);
      hide Step, ManifestAt, SortBy, FirstLines, Run, LinesOf;
      if WritesManifest(s', es[last], p, d) {
        LinesNow(cfg, s, es, p, d);
        k := Some(last);
      } else {
        hide WriteAt, LastWriter, NeverWritten, WritesManifest;
        k := ManifestIsLastBatch(cfg, s, es[..last], p, d);
        if k.Some? {
          LastWriterSnoc(cfg, s, es, p, d, k.value);
        } else {
          NeverWrittenSnoc(cfg, s, es, p, d);
        }
      }
    }
  }
}
