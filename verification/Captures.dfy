/** What a capture holds, the packets that arrived while it was being written, and how old it looks, as old as the last of
    them. With that, no packet is lost and no file is taken while packets still arrive in it. */
module Captures {
  import opened Hashing
  import opened Names
  import opened Files
  import opened Pipeline
  import opened Frames
  import opened Order
  import opened Safety
  import opened Guarantees
  import opened Sorting
  import Batches
  import Deliveries
  import OldestFirst

  /** The packets that arrived, in order, while `n` was the file being written. */
  function Recorded(cfg: Config, s: System, es: seq<Event>, n: Name): Content {
    if es == [] then []
    else
      var k := |es| - 1;
      Recorded(cfg, s, es[..k], n) +
      if es[k].Packets? && Run(cfg, s, es[..k]).w.active == Some(n) then es[k].data else []
  }

  /** The file being written and the closed captures hold what was recorded. */
  ghost predicate Holds(w: World, n: Name, r: Content) {
    && (w.active == Some(n) ==> n in w.ring && w.ring[n].content == r)
    && (n in w.original ==> w.original[n] == r)
    && (n !in w.captured ==> r == [])
  }

  lemma StepRecords(cfg: Config, s: System, e: Event, n: Name, r: Content)
    requires Inv(cfg, s) && Admissible(cfg, s, e) && Holds(s.w, n, r)
    ensures Holds(Step(cfg, s, e).w, n, r + if e.Packets? && s.w.active == Some(n) then e.data else [])
  {
    hide NewestPart, StrictPart, OthersQuiet, Distinct, RingKnown, AllKept, MoverOk, CopyOk, DaemonOk;
    if e.MoverDo? {
      MoverRecords(cfg, s, e.m, n, r);
    } else if e.DaemonDo? {
      DaemonKeepsHistory(cfg, s.w, s.daemon, e.d);
      hide DaemonStep;
    }
    assert r + [] == r;
  }

  lemma MoverRecords(cfg: Config, s: System, o: Io, n: Name, r: Content)
    requires OrderInv(cfg, s) && Holds(s.w, n, r)
    ensures Holds(Step(cfg, s, MoverDo(o)).w, n, r)
  {
    MoverKeepsHistory(cfg, s.w, s.mover, o);
    MoverTakesOnlyTarget(cfg, s.w, s.mover, o);
    hide MoverStep, Ordered, StrictPart;
  }

  lemma {:induction false} RunRecords(cfg: Config, s: System, es: seq<Event>, n: Name)
    requires Sane(cfg) && Inv(cfg, s) && AdmissibleRun(cfg, s, es) && n !in s.w.captured
    ensures Holds(Run(cfg, s, es).w, n, Recorded(cfg, s, es, n))
  {
    if es == [] {
      hide NewestPart, StrictPart, OthersQuiet, Distinct, RingKnown, AllKept, MoverOk, CopyOk, DaemonOk;
    } else {
      SplitRun(cfg, s, es);
      var k := |es| - 1;
      RunRecords(cfg, s, es[..k], n);
      hide Run, Inv, Holds, AdmissibleRun, Step, Admissible;
      RunKeeps(cfg, s, es[..k]);
      StepRecords(cfg, Run(cfg, s, es[..k]), es[k], n, Recorded(cfg, s, es[..k], n));
    }
  }

  /** Over every run, whatever was recorded in a capture taken during the run is held at the end of the run, from the
      moment the capture is closed. */
  lemma NoPacketLost(cfg: Config, s: System, es: seq<Event>, k: nat, n: Name)
    requires Sane(cfg) && Inv(cfg, s) && AdmissibleRun(cfg, s, es) && k <= |es| && n !in s.w.captured
    requires n in Run(cfg, s, es[..k]).w.original
    ensures Held(Run(cfg, s, es).w, n, Recorded(cfg, s, es[..k], n))
  {
    hide Run, Inv, AdmissibleRun, Held, Recorded, Sane;
    AdmissiblePrefix(cfg, s, es, k);
    RunRecords(cfg, s, es[..k], n);
    NoCaptureLost(cfg, s, es, k, n);
  }

  // ---------------------------------------------------------------- which file is written

  /** The file that was opened last and not closed since. */
  function OpenFile(s: System, es: seq<Event>): Option<Name> {
    if es == [] then s.w.active
    else
      var e := es[|es| - 1];
      if e.NewCapture? then Some(e.name) else if e.StopCapture? then None else OpenFile(s, es[..|es| - 1])
  }

  lemma StepOpens(cfg: Config, s: System, e: Event)
    ensures Step(cfg, s, e).w.active ==
            if e.NewCapture? then Some(e.name) else if e.StopCapture? then None else s.w.active
  {
    if e.MoverDo? {
      MoverKeepsHistory(cfg, s.w, s.mover, e.m);
      hide MoverStep;
    } else if e.DaemonDo? {
      DaemonKeepsHistory(cfg, s.w, s.daemon, e.d);
      hide DaemonStep;
    }
  }

  /** Over every run, the file being written is the one that tcpdump opened last, until it stops; nobody else opens or
      closes one. */
  lemma {:induction false} ActiveIsOpenFile(cfg: Config, s: System, es: seq<Event>)
    ensures Run(cfg, s, es).w.active == OpenFile(s, es)
  {
    if es != [] {
      ActiveIsOpenFile(cfg, s, es[..|es| - 1]);
      StepOpens(cfg, Run(cfg, s, es[..|es| - 1]), es[|es| - 1]);
      hide Step;
    }
  }

  // ---------------------------------------------------------------- when the last packet arrived

  /** When file `n` was last written to: opened, or given a packet. */
  function LastWritten(cfg: Config, s: System, es: seq<Event>, n: Name): Option<int> {
    if es == [] then None
    else
      var k := |es| - 1;
      var w := Run(cfg, s, es[..k]).w;
      if es[k] == NewCapture(n) || (es[k].Packets? && w.active == Some(n)) then Some(w.clock)
      else LastWritten(cfg, s, es[..k], n)
  }

  /** No move to the backlog breaks off half way. */
  ghost predicate WholeMove(s: System, e: Event) {
    e.MoverDo? && s.mover.Routed? && s.mover.to.None? ==> Partial(e.m).None?
  }

  ghost predicate WholeMoves(cfg: Config, s: System, es: seq<Event>) {
    es != [] ==> WholeMoves(cfg, s, es[..|es| - 1]) && WholeMove(Run(cfg, s, es[..|es| - 1]), es[|es| - 1])
  }

  lemma WholeSplit(cfg: Config, s: System, es: seq<Event>)
    requires WholeMoves(cfg, s, es) && es != []
    ensures WholeMoves(cfg, s, es[..|es| - 1]) && WholeMove(Run(cfg, s, es[..|es| - 1]), es[|es| - 1])
  {
  }

  ghost predicate Dated(w: World, n: Name, t: Option<int>) {
    && (n in w.ring ==> t == Some(w.ring[n].mtime))
    && (n in w.backlog ==> t == Some(w.backlog[n].mtime))
  }

  lemma MoverKeepsDates(cfg: Config, s: System, o: Io, n: Name, t: Option<int>)
    requires WholeMove(s, MoverDo(o)) && Dated(s.w, n, t)
    ensures Dated(Step(cfg, s, MoverDo(o)).w, n, t)
  {
    hide Dated;
    if s.mover.Routed? {
      hide MoverMove;
      MoveKeepsDates(cfg, s.w, s.mover.target, s.mover.to, s.mover.date, o, n, t);
    } else {
      MoverTakesOnlyTarget(cfg, s.w, s.mover, o);
      OffMoveKeepsBacklog(cfg, s.w, s.mover, o);
      hide MoverStep;
      FewerFilesSameDates(s.w, Step(cfg, s, MoverDo(o)).w, if s.mover.Copied? then s.mover.target else n + "x", n, t);
    }
  }

  lemma OffMoveKeepsBacklog(cfg: Config, w: World, m: Mover, o: Io)
    requires !m.Routed?
    ensures MoverStep(cfg, w, m, o).0.backlog == w.backlog
    ensures !m.Copied? ==> MoverStep(cfg, w, m, o).0.ring == w.ring
  {
    hide MoverMove, Resolve, StoreAt, OldestFirst.Pick;
  }

  lemma MoveKeepsDates(cfg: Config, w: World, target: Name, to: Option<Mount>, date: Date, o: Io, n: Name, t: Option<int>)
    requires (to.None? ==> Partial(o).None?) && Dated(w, n, t)
    ensures Dated(MoverMove(cfg, w, target, to, date, o).0, n, t)
  {
    var w' := MoverMove(cfg, w, target, to, date, o).0;
    if to.Some? {
      assert w'.backlog == w.backlog && w'.ring.Keys <= w.ring.Keys by {
        hide Resolve, StoreAt, HasDir, SameDevice, Dated;
      }
      assert w'.ring == w.ring || w'.ring == w.ring - {target} by {
        hide Resolve, StoreAt, HasDir, SameDevice, Dated;
      }
      hide MoverMove;
    }
  }

  lemma FewerFilesSameDates(w: World, w': World, x: Name, n: Name, t: Option<int>)
    requires Dated(w, n, t) && w'.backlog == w.backlog && (w'.ring == w.ring || w'.ring == w.ring - {x})
    ensures Dated(w', n, t)
  {
  }

  lemma DaemonKeepsDates(cfg: Config, s: System, o: Io, n: Name, t: Option<int>)
    requires Dated(s.w, n, t)
    ensures Dated(Step(cfg, s, DaemonDo(o)).w, n, t)
  {
    DaemonKeepsHistory(cfg, s.w, s.daemon, o);
    DaemonKeepsBacklogFiles(cfg, s.w, s.daemon, o);
    hide DaemonStep;
  }

  lemma DaemonKeepsBacklogFiles(cfg: Config, w: World, d: Daemon, o: Io)
    ensures var w' := DaemonStep(cfg, w, d, o).0;
            forall n :: n in w'.backlog ==> n in w.backlog && w'.backlog[n] == w.backlog[n]
  {
    hide TransferStep, Resolve, StoreAt, HasDir, SortNames, Settle, FirstLines;
    if d.Moving? {
      TransferKeepsBacklogFiles(cfg, w, JobOf(d.b), d.t, o);
    }
  }

  lemma TransferKeepsBacklogFiles(cfg: Config, w: World, job: Job, t: Transfer, o: Io)
    ensures var w' := TransferStep(cfg, w, job, t, o).0; w'.backlog == w.backlog || w'.backlog == w.backlog - {job.name}
  {
    hide Resolve, StoreAt, HasDir, SameDevice;
  }

  lemma CaptureKeepsDates(cfg: Config, s: System, e: Event, n: Name, t: Option<int>)
    requires OrderInv(cfg, s) && Admissible(cfg, s, e) && Dated(s.w, n, t) && !e.MoverDo? && !e.DaemonDo?
    ensures var written := e == NewCapture(n) || (e.Packets? && s.w.active == Some(n));
            Dated(Step(cfg, s, e).w, n, if written then Some(s.w.clock) else t)
  {
    hide NewestPart, StrictPart, OthersQuiet, Distinct, MoverOk;
  }

  lemma StepKeepsDates(cfg: Config, s: System, e: Event, n: Name, t: Option<int>)
    requires OrderInv(cfg, s) && Admissible(cfg, s, e) && WholeMove(s, e) && Dated(s.w, n, t)
    ensures var written := e == NewCapture(n) || (e.Packets? && s.w.active == Some(n));
            Dated(Step(cfg, s, e).w, n, if written then Some(s.w.clock) else t)
  {
    hide OrderInv, Admissible, Step, Dated, WholeMove;
    if e.MoverDo? {
      MoverKeepsDates(cfg, s, e.m, n, t);
    } else if e.DaemonDo? {
      DaemonKeepsDates(cfg, s, e.d, n, t);
    } else {
      CaptureKeepsDates(cfg, s, e, n, t);
    }
  }

  /** Over every run in which no move to the backlog breaks off, a capture taken during the run carries the time of its last
      packet, in the ring and, however it got there, in the backlog. */
  lemma {:induction false} MtimeIsLastPacket(cfg: Config, s: System, es: seq<Event>, n: Name)
    requires Cautious(cfg) && OrderInv(cfg, s) && AdmissibleRun(cfg, s, es) && WholeMoves(cfg, s, es)
    requires n !in s.w.ring && n !in s.w.backlog
    ensures Dated(Run(cfg, s, es).w, n, LastWritten(cfg, s, es, n))
  {
    if es != [] {
      SplitRun(cfg, s, es);
      WholeSplit(cfg, s, es);
      hide Run, OrderInv, Dated, AdmissibleRun, WholeMoves, WholeMove, Step, Admissible;
      var k := |es| - 1;
      MtimeIsLastPacket(cfg, s, es[..k], n);
      RunKeepsOrder(cfg, s, es[..k]);
      StepKeepsDates(cfg, Run(cfg, s, es[..k]), es[k], n, LastWritten(cfg, s, es[..k], n));
    }
  }

  /** Over every such run, when a file is taken from the ring its last packet arrived three seconds ago or more, and while
      one is transferred its last packet is one and a half rotations old. */
  lemma TakenAfterSilence(cfg: Config, s: System, es: seq<Event>, n: Name)
    requires Sane(cfg) && Inv(cfg, s) && AdmissibleRun(cfg, s, es) && WholeMoves(cfg, s, es)
    requires n !in s.w.ring && n !in s.w.backlog && s.mover.Asleep? && !s.daemon.Moving?
    ensures var r, last := Run(cfg, s, es), LastWritten(cfg, s, es, n);
            && (r.mover.Routed? && r.mover.target == n && n in r.w.ring ==>
                  last.Some? && r.w.clock - last.value >= 3_000_000_000)
            && (r.daemon.Moving? && JobOf(r.daemon.b).name == n && n in r.w.backlog ==>
                  last.Some? && 2 * (r.w.clock - last.value) >= 3 * cfg.rotateSeconds * 1_000_000_000)
  {
    SaneIsDependable(cfg);
    InvIsOrdered(cfg, s);
    assert Deliveries.TargetQuiet(s.w, s.mover) && Batches.SettledSource(cfg, s.w, s.daemon);
    MtimeIsLastPacket(cfg, s, es, n);
    Deliveries.OnlyQuietFilesLeave(cfg, s, es);
    Batches.OnlySettledFilesMove(cfg, s, es);
    RunKeeps(cfg, s, es);
    hide Run, AdmissibleRun, WholeMoves, LastWritten, Sane, OrderInv, Kept, CopyOk, TransferOk, Pending;
  }
}
