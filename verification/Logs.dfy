/** TRANSFER.LOG over whole runs: it only grows, by what batches report, it is true, and it reports no capture twice. */
module Logs {
  import opened Hashing
  import opened Names
  import opened Files
  import opened Pipeline
  import opened Frames
  import opened Order
  import opened Safety
  import opened Manifests
  import opened Batches

  function LogAt(w: World, p: Place): seq<Entry> {
    StoreAt(w, p).log
  }

  /** What one event adds to the log at `p`. */
  function LogPiece(s: System, e: Event, p: Place): seq<Entry> {
    if e.DaemonDo? && s.daemon.Log? && Resolve(s.w, s.daemon.b.mount) == p && (e.d.Done? || e.d.Torn?)
    then FirstLines(s.daemon.b.entries, e.d) else []
  }

  lemma MoverLeavesLogs(cfg: Config, w: World, m: Mover, o: Io, p: Place)
    ensures LogAt(MoverStep(cfg, w, m, o).0, p) == LogAt(w, p)
  {
    hide MoverMove;
    if m.Routed? {
      MoverMoveLeavesLogs(cfg, w, m.target, m.to, m.date, o, p);
    }
  }

  lemma MoverMoveLeavesLogs(cfg: Config, w: World, n: Name, to: Option<Mount>, date: Date, o: Io, p: Place)
    ensures LogAt(MoverMove(cfg, w, n, to, date, o).0, p) == LogAt(w, p)
  {
  }

  lemma TransferLeavesLogs(cfg: Config, w: World, job: Job, t: Transfer, o: Io, p: Place)
    ensures LogAt(TransferStep(cfg, w, job, t, o).0, p) == LogAt(w, p)
  {
  }

  lemma StepLog(cfg: Config, s: System, e: Event, p: Place)
    ensures LogAt(Step(cfg, s, e).w, p) == LogAt(s.w, p) + LogPiece(s, e, p)
  {
    hide MoverStep, DaemonStep;
    if e.MoverDo? {
      MoverLeavesLogs(cfg, s.w, s.mover, e.m, p);
    } else if e.DaemonDo? {
      DaemonLog(cfg, s, e.d, p);
    }
  }

  lemma DaemonLog(cfg: Config, s: System, o: Io, p: Place)
    ensures LogAt(DaemonStep(cfg, s.w, s.daemon, o).0, p) == LogAt(s.w, p) + LogPiece(s, DaemonDo(o), p)
  {
    hide TransferStep, SortNames, Settle;
    if s.daemon.Moving? {
      TransferLeavesLogs(cfg, s.w, JobOf(s.daemon.b), s.daemon.t, o, p);
    }
  }

  // ---------------------------------------------------------------- logs grow by batches

  /** Lines that event number `at` wrote for batch `b`. */
  datatype Piece = Piece(at: nat, b: Batch, lines: seq<Entry>)

  function Joined(pieces: seq<Piece>): seq<Entry> {
    if pieces == [] then [] else Joined(pieces[..|pieces| - 1]) + pieces[|pieces| - 1].lines
  }

  /** Event number `k` is the append of batch `b` to the log at `p`. */
  ghost predicate AppendsAt(cfg: Config, s: System, es: seq<Event>, p: Place, k: nat, b: Batch) {
    && k < |es| && es[k].DaemonDo? && Run(cfg, s, es[..k]).daemon == Log(b)
    && Resolve(Run(cfg, s, es[..k]).w, b.mount) == p
  }

  /** The batch had dealt with its whole listing, its books were balanced, and the lines are its entries, or the first of
      them if the append did not complete. */
  ghost predicate WrittenBy(cfg: Config, s: System, es: seq<Event>, p: Place, piece: Piece) {
    && AppendsAt(cfg, s, es, p, piece.at, piece.b)
    && Books(piece.b) && piece.b.next == |piece.b.listing| && piece.lines <= piece.b.entries
    && (es[piece.at].d.Done? ==> piece.lines == piece.b.entries)
  }

  ghost predicate AllWrittenBy(cfg: Config, s: System, es: seq<Event>, p: Place, pieces: seq<Piece>) {
    && (forall x :: 0 <= x < |pieces| ==> WrittenBy(cfg, s, es, p, pieces[x]))
    && (forall x, y :: 0 <= x < y < |pieces| ==> pieces[x].at < pieces[y].at)
  }

  ghost predicate Contributes(pieces: seq<Piece>, k: nat) {
    exists x :: 0 <= x < |pieces| && pieces[x].at == k
  }

  /** Every append there has its piece. */
  ghost predicate NoneMissing(cfg: Config, s: System, es: seq<Event>, p: Place, pieces: seq<Piece>) {
    forall k, b :: AppendsAt(cfg, s, es, p, k, b) ==> Contributes(pieces, k)
  }

  lemma WrittenLater(cfg: Config, s: System, es: seq<Event>, k: nat, p: Place, piece: Piece)
    requires k <= |es| && WrittenBy(cfg, s, es[..k], p, piece)
    ensures WrittenBy(cfg, s, es, p, piece)
  {
    assert es[..k][..piece.at] == es[..piece.at];
  }

  lemma AppendedBefore(cfg: Config, s: System, es: seq<Event>, last: nat, p: Place, k: nat, b: Batch)
    requires last <= |es| && k < last && AppendsAt(cfg, s, es, p, k, b)
    ensures AppendsAt(cfg, s, es[..last], p, k, b)
  {
    assert es[..last][..k] == es[..k];
  }

  lemma LogStepWritten(cfg: Config, s: System, es: seq<Event>, p: Place, b: Batch)
    requires es != [] && Accounted(Run(cfg, s, es[..|es| - 1]).w, Run(cfg, s, es[..|es| - 1]).daemon)
    requires AppendsAt(cfg, s, es, p, |es| - 1, b)
    ensures var s' := Run(cfg, s, es[..|es| - 1]);
            WrittenBy(cfg, s, es, p, Piece(|es| - 1, b, LogPiece(s', es[|es| - 1], p)))
  {
    hide Run, Books;
  }

  /** The last event is an append there, or it adds nothing. */
  ghost predicate AppendsNow(cfg: Config, s: System, es: seq<Event>, p: Place)
    requires es != []
  {
    var s' := Run(cfg, s, es[..|es| - 1]);
    es[|es| - 1].DaemonDo? && s'.daemon.Log? && Resolve(s'.w, s'.daemon.b.mount) == p
  }

  lemma AppendsNowIff(cfg: Config, s: System, es: seq<Event>, p: Place)
    requires es != []
    ensures var k := |es| - 1;
            var s' := Run(cfg, s, es[..k]);
            && (!AppendsNow(cfg, s, es, p) ==> LogPiece(s', es[k], p) == [])
            && (AppendsNow(cfg, s, es, p) ==> s'.daemon.Log? && AppendsAt(cfg, s, es, p, k, s'.daemon.b))
            && (forall b :: AppendsAt(cfg, s, es, p, k, b) ==> AppendsNow(cfg, s, es, p))
  {
    hide Run;
  }

  lemma NoneMissingSnoc(cfg: Config, s: System, es: seq<Event>, p: Place, before: seq<Piece>, pieces: seq<Piece>)
    requires es != [] && NoneMissing(cfg, s, es[..|es| - 1], p, before) && before <= pieces
    requires AppendsNow(cfg, s, es, p) ==> Contributes(pieces, |es| - 1)
    ensures NoneMissing(cfg, s, es, p, pieces)
  {
    var k := |es| - 1;
    AppendsNowIff(cfg, s, es, p);
    hide Run, AppendsAt, AppendsNow, LogPiece;
    forall j: nat, b | AppendsAt(cfg, s, es, p, j, b) ensures Contributes(pieces, j) {
      AppendsInRange(cfg, s, es, p, j, b);
      if j < k {
        AppendedBefore(cfg, s, es, k, p, j, b);
        var x :| 0 <= x < |before| && before[x].at == j;
        assert pieces[x].at == j;
      }
    }
  }

  lemma PiecesSnoc(cfg: Config, s: System, es: seq<Event>, p: Place, before: seq<Piece>) returns (pieces: seq<Piece>)
    requires es != [] && Accounted(Run(cfg, s, es[..|es| - 1]).w, Run(cfg, s, es[..|es| - 1]).daemon)
    requires AllWrittenBy(cfg, s, es[..|es| - 1], p, before) && NoneMissing(cfg, s, es[..|es| - 1], p, before)
    ensures AllWrittenBy(cfg, s, es, p, pieces) && NoneMissing(cfg, s, es, p, pieces)
    ensures Joined(pieces) == Joined(before) + LogPiece(Run(cfg, s, es[..|es| - 1]), es[|es| - 1], p)
  {
    hide Run, Accounted, LogPiece, WrittenBy, AppendsAt, AppendsNow, NoneMissing;
    var k := |es| - 1;
    var s' := Run(cfg, s, es[..k]);
    AppendsNowIff(cfg, s, es, p);
    forall x | 0 <= x < |before| ensures WrittenBy(cfg, s, es, p, before[x]) && before[x].at < k {
      WrittenLater(cfg, s, es, k, p, before[x]);
      WrittenBefore(cfg, s, es[..k], p, before[x]);
    }
    if AppendsNow(cfg, s, es, p) {
      LogStepWritten(cfg, s, es, p, s'.daemon.b);
      pieces := before + [Piece(k, s'.daemon.b, LogPiece(s', es[k], p))];
      assert pieces[..|before|] == before && pieces[|before|].at == k;
    } else {
      pieces := before;
    }
    NoneMissingSnoc(cfg, s, es, p, before, pieces);
  }

  lemma AppendsInRange(cfg: Config, s: System, es: seq<Event>, p: Place, k: nat, b: Batch)
    requires AppendsAt(cfg, s, es, p, k, b)
    ensures k < |es|
  {
  }

  lemma NoPieces(cfg: Config, s: System, p: Place)
    ensures Run(cfg, s, []) == s && Joined([]) == []
    ensures AllWrittenBy(cfg, s, [], p, []) && NoneMissing(cfg, s, [], p, [])
  {
  }

  /** Over every run the log at any place is what it was, followed by the entries of the finished batches that wrote there,
      in the order in which they did: all of them, and all entries of an append that completed. */
  lemma {:induction false} LogIsBatches(cfg: Config, s: System, es: seq<Event>, p: Place) returns (pieces: seq<Piece>)
    requires Sane(cfg) && Inv(cfg, s) && AdmissibleRun(cfg, s, es) && Accounted(s.w, s.daemon)
    ensures LogAt(Run(cfg, s, es).w, p) == LogAt(s.w, p) + Joined(pieces)
    ensures AllWrittenBy(cfg, s, es, p, pieces) && NoneMissing(cfg, s, es, p, pieces)
  {
    hide *;
    if es == [] {
      pieces := [];
      NoPieces(cfg, s, p);
    } else {
      SplitRun(cfg, s, es);
      var k := |es| - 1;
      pieces := LogIsBatches(cfg, s, es[..k], p);
      RunAccounts(cfg, s, es[..k]);
      StepLog(cfg, Run(cfg, s, es[..k]), es[k], p);
      pieces := PiecesSnoc(cfg, s, es, p, pieces);
    }
  }

  lemma WrittenBefore(cfg: Config, s: System, es: seq<Event>, p: Place, piece: Piece)
    requires WrittenBy(cfg, s, es, p, piece)
    ensures piece.at < |es|
  {
  }

  // ---------------------------------------------------------------- logs are true

  /** A digest cut to its first 16 characters, or whole if it is no longer than that. */
  ghost predicate Shortened(whole: Digest, short: Digest) {
    short <= whole && |short| == if |whole| < 16 then |whole| else 16
  }

  /** An OK line names a capture that has left the sensor, with size zero and the shortened digest of what the capture
      held. Any other line names a closed capture, with its size and no digest, or size zero if it has left after all. */
  ghost predicate EntryTrue(cfg: Config, w: World, e: Entry) {
    && e.name in w.original
    && (e.ok ==>
          && Evacuated(w, e.name) && e.size == 0
          && e.digest.Some? && Shortened(cfg.sha(w.original[e.name]), e.digest.value))
    && (!e.ok ==> e.digest == None && (e.size == |w.original[e.name]| || (e.size == 0 && Evacuated(w, e.name))))
  }

  ghost predicate EntriesTrue(cfg: Config, w: World, entries: seq<Entry>) {
    forall e :: e in entries ==> EntryTrue(cfg, w, e)
  }

  ghost predicate LogsTrue(cfg: Config, s: System) {
    && (forall p :: EntriesTrue(cfg, s.w, LogAt(s.w, p)))
    && (HasBatch(s.daemon) ==> EntriesTrue(cfg, s.w, s.daemon.b.entries))
  }

  lemma EntriesSurvive(cfg: Config, w: World, w': World, entries: seq<Entry>)
    requires CopiesFinal(w, w') && OriginalsKept(w, w') && EntriesTrue(cfg, w, entries)
    ensures EntriesTrue(cfg, w', entries)
  {
    hide Evacuated, At;
    forall e | e in entries ensures EntryTrue(cfg, w', e) {
      assert EntryTrue(cfg, w, e);
    }
  }

  lemma SettleEntryTrue(cfg: Config, s: System, b: Batch, t: Transfer)
    requires Inv(cfg, s) && s.daemon == Moving(b, t) && Returned(t) && BatchTrue(cfg, s.w, s.daemon)
    ensures EntryTrue(cfg, s.w, EntryFor(s.w, b.listing[b.next], t))
  {
    var n := b.listing[b.next];
    if t.Failed? {
      BacklogIsClosed(s.w, n);
    } else {
      ReturnedIsEvacuated(cfg, s, b, t);
    }
    hide OrderInv, Kept, CopyOk, Evacuated, LinesTrue, At;
  }

  /** The entries that a step of the daemon leaves in its books. */
  lemma DaemonEntries(cfg: Config, s: System, o: Io)
    requires HasBatch(Step(cfg, s, DaemonDo(o)).daemon)
    ensures var d, entries := s.daemon, Step(cfg, s, DaemonDo(o)).daemon.b.entries;
            || entries == []
            || (HasBatch(d) && entries == d.b.entries)
            || (d.Moving? && Returned(d.t) && d.b.next < |d.b.listing|
                && entries == d.b.entries + [EntryFor(s.w, d.b.listing[d.b.next], d.t)])
  {
    hide TransferStep, SortNames, EntryFor;
  }

  lemma StepLogsTrue(cfg: Config, s: System, e: Event)
    requires Dependable(cfg) && Inv(cfg, s) && Admissible(cfg, s, e) && Truthful(cfg, s) && LogsTrue(cfg, s)
    ensures LogsTrue(cfg, Step(cfg, s, e))
  {
    var s' := Step(cfg, s, e);
    StepLeavesCopies(cfg, s, e);
    OriginalsFixedStep(cfg, s, e);
    if HasBatch(s'.daemon) {
      StepEntriesTrue(cfg, s, e);
    }
    forall p ensures EntriesTrue(cfg, s'.w, LogAt(s'.w, p)) {
      StepLog(cfg, s, e, p);
      EntriesSurvive(cfg, s.w, s'.w, LogAt(s.w, p));
      if LogPiece(s, e, p) != [] {
        EntriesSurvive(cfg, s.w, s'.w, s.daemon.b.entries);
      }
      hide Step, Inv, Admissible, LogAt, EntryTrue, CopiesFinal, Truthful;
      assert forall x :: x in LogPiece(s, e, p) ==> x in s.daemon.b.entries;
    }
  }

  lemma StepEntriesTrue(cfg: Config, s: System, e: Event)
    requires Inv(cfg, s) && Truthful(cfg, s) && LogsTrue(cfg, s) && HasBatch(Step(cfg, s, e).daemon)
    requires CopiesFinal(s.w, Step(cfg, s, e).w) && OriginalsKept(s.w, Step(cfg, s, e).w)
    ensures EntriesTrue(cfg, Step(cfg, s, e).w, Step(cfg, s, e).daemon.b.entries)
  {
    var s' := Step(cfg, s, e);
    var entries := s'.daemon.b.entries;
    if e.DaemonDo? {
      DaemonEntries(cfg, s, e.d);
      if s.daemon.Moving? && Returned(s.daemon.t) {
        SettleEntryTrue(cfg, s, s.daemon.b, s.daemon.t);
      }
    } else {
      assert s'.daemon == s.daemon;
    }
    hide Step, Inv, EntryTrue, CopiesFinal, EntryFor, Truthful;
    assert EntriesTrue(cfg, s.w, entries);
    EntriesSurvive(cfg, s.w, s'.w, entries);
  }

  /** Over every run without swaps under a running batch, every line of every log is true. */
  lemma {:induction false} LogsStayTrue(cfg: Config, s: System, es: seq<Event>)
    requires Sane(cfg) && Inv(cfg, s) && Truthful(cfg, s) && LogsTrue(cfg, s)
    requires AdmissibleRun(cfg, s, es) && SteadyRun(cfg, s, es)
    ensures LogsTrue(cfg, Run(cfg, s, es))
  {
    if es != [] {
      SplitRun(cfg, s, es);
      assert SteadyRun(cfg, s, es[..|es| - 1]);
      SaneIsDependable(cfg);
      hide *;
      var k := |es| - 1;
      LogsStayTrue(cfg, s, es[..k]);
      RunKeeps(cfg, s, es[..k]);
      ManifestsStayTrue(cfg, s, es[..k]);
      StepLogsTrue(cfg, Run(cfg, s, es[..k]), es[k]);
    }
  }

  // ---------------------------------------------------------------- no capture is reported twice

  /** Line `i` of the log at `p` reports capture `n` as transferred. */
  ghost predicate OkAt(w: World, p: Place, i: int, n: Name) {
    0 <= i < |LogAt(w, p)| && LogAt(w, p)[i].ok && LogAt(w, p)[i].name == n
  }

  ghost predicate Unlogged(w: World, n: Name) {
    forall p, i :: !OkAt(w, p, i, n)
  }

  /** On all volumes together, no capture is reported as transferred more than once. */
  ghost predicate LoggedOnce(w: World) {
    forall p, i, q, j, n :: OkAt(w, p, i, n) && OkAt(w, q, j, n) ==> p == q && i == j
  }

  ghost predicate LoggedAreGone(w: World) {
    forall p, i, n :: OkAt(w, p, i, n) ==> Evacuated(w, n)
  }

  /** The daemon has a batch whose entries are not in the log yet. */
  ghost predicate BeforeLog(d: Daemon) {
    d.AtFile? || d.Moving? || d.Manifest? || d.Log?
  }

  ghost predicate PendingUnlogged(w: World, d: Daemon) {
    && (BeforeLog(d) ==> forall e :: e in d.b.entries && e.ok ==> Evacuated(w, e.name) && Unlogged(w, e.name))
    && (d.Moving? ==> d.b.next < |d.b.listing| && Unlogged(w, d.b.listing[d.b.next]))
  }

  ghost predicate OnceInv(s: System) {
    LoggedOnce(s.w) && LoggedAreGone(s.w) && PendingUnlogged(s.w, s.daemon)
  }

  ghost predicate SameLogs(w: World, w': World) {
    forall p :: LogAt(w', p) == LogAt(w, p)
  }

  lemma SameLogsSame(w: World, w': World)
    requires SameLogs(w, w') && LoggedOnce(w) && LoggedAreGone(w) && CopiesFinal(w, w')
    ensures LoggedOnce(w') && LoggedAreGone(w')
  {
    hide LogAt, Evacuated, At;
    forall p, i, n | OkAt(w', p, i, n) ensures OkAt(w, p, i, n) && Evacuated(w', n) {
      assert OkAt(w, p, i, n);
    }
  }

  lemma UnloggedStays(w: World, w': World, n: Name)
    requires SameLogs(w, w') && Unlogged(w, n)
    ensures Unlogged(w', n)
  {
    hide LogAt;
    forall p, i ensures !OkAt(w', p, i, n) {
      assert !OkAt(w, p, i, n);
    }
  }

  lemma StepSameLogs(cfg: Config, s: System, e: Event)
    requires !(e.DaemonDo? && s.daemon.Log?)
    ensures SameLogs(s.w, Step(cfg, s, e).w)
  {
    hide Step, LogAt;
    forall p ensures LogAt(Step(cfg, s, e).w, p) == LogAt(s.w, p) {
      StepLog(cfg, s, e, p);
    }
  }

  /** A file still in the backlog has not been reported. */
  lemma BacklogUnlogged(w: World, n: Name)
    requires LoggedAreGone(w) && n in w.backlog
    ensures Unlogged(w, n)
  {
    hide LogAt;
  }

  lemma PendingStays(w: World, w': World, d: Daemon)
    requires SameLogs(w, w') && CopiesFinal(w, w') && PendingUnlogged(w, d)
    ensures PendingUnlogged(w', d)
  {
    if BeforeLog(d) {
      forall e | e in d.b.entries && e.ok ensures Evacuated(w', e.name) && Unlogged(w', e.name) {
        UnloggedStays(w, w', e.name);
      }
      if d.Moving? {
        UnloggedStays(w, w', d.b.listing[d.b.next]);
      }
    }
  }

  /** A step of the daemon before the log is written, seen in the world as it was. */
  lemma DaemonPending(cfg: Config, s: System, o: Io)
    requires Inv(cfg, s) && OnceInv(s) && !s.daemon.Log?
    ensures PendingUnlogged(s.w, Step(cfg, s, DaemonDo(o)).daemon)
  {
    var d, d' := s.daemon, Step(cfg, s, DaemonDo(o)).daemon;
    if d.Moving? && (d.t.Renamed? || d.t.Verified?) {
      ReturnedIsEvacuated(cfg, s, d.b, d.t);
    }
    if BeforeLog(d') {
      DaemonEntries(cfg, s, o);
      if d'.Moving? {
        DaemonCurrent(cfg, s, o);
      }
    }
    hide Inv, Unlogged, LoggedOnce, LoggedAreGone, Evacuated, Step, EntryFor;
    EntryForOk(s.w, d);
  }

  lemma EntryForOk(w: World, d: Daemon)
    ensures d.Moving? && d.b.next < |d.b.listing| ==>
              var n := d.b.listing[d.b.next];
              EntryFor(w, n, d.t).name == n && (EntryFor(w, n, d.t).ok <==> d.t.Renamed? || d.t.Verified?)
  {
  }

  /** The file under transfer: the same as before, or the next one, still in the backlog. */
  lemma DaemonCurrent(cfg: Config, s: System, o: Io)
    requires Inv(cfg, s) && OnceInv(s) && Step(cfg, s, DaemonDo(o)).daemon.Moving?
    ensures var d' := Step(cfg, s, DaemonDo(o)).daemon;
            d'.b.next < |d'.b.listing| && Unlogged(s.w, d'.b.listing[d'.b.next])
  {
    hide OrderInv, Kept, CopyOk, TransferStep, Unlogged, LoggedOnce, LoggedAreGone, Evacuated, SortNames, Settle;
    if s.daemon.AtFile? {
      BacklogUnlogged(s.w, s.daemon.b.listing[s.daemon.b.next]);
    }
  }

  lemma QuietStepOnce(cfg: Config, s: System, e: Event)
    requires Dependable(cfg) && Inv(cfg, s) && Admissible(cfg, s, e) && OnceInv(s) && !(e.DaemonDo? && s.daemon.Log?)
    ensures OnceInv(Step(cfg, s, e))
  {
    var s' := Step(cfg, s, e);
    StepLeavesCopies(cfg, s, e);
    StepSameLogs(cfg, s, e);
    if e.DaemonDo? {
      DaemonPending(cfg, s, e.d);
    } else {
      assert s'.daemon == s.daemon || s'.daemon.Idle?;
    }
    hide Step, Inv, Admissible, CopiesFinal, SameLogs, LoggedOnce, LoggedAreGone;
    SameLogsSame(s.w, s'.w);
    PendingStays(s.w, s'.w, s'.daemon);
  }

  lemma {:induction false} ExceptDistinct(names: seq<Name>, drop: seq<Name>)
    requires Distinct(names)
    ensures Distinct(Except(names, drop)) && forall n :: n in Except(names, drop) ==> n in names
  {
    if names != [] {
      var k := |names| - 1;
      ExceptDistinct(names[..k], drop);
      assert names[k] !in names[..k];
      if names[k] !in drop {
        DistinctSnoc(Except(names[..k], drop), names[k]);
      }
    }
  }

  lemma {:induction false} EntryNamesAt(entries: seq<Entry>, i: nat)
    requires i < |entries|
    ensures i < |EntryNames(entries)| == |entries| && EntryNames(entries)[i] == entries[i].name
  {
    var k := |entries| - 1;
    if k > 0 {
      EntryNamesAt(entries[..k], if i < k then i else 0);
    }
  }

  /** The entries of a batch are about different files. */
  lemma EntriesDiffer(b: Batch, i: nat, j: nat)
    requires Distinct(b.listing) && Books(b) && i < j < |b.entries|
    ensures b.entries[i].name != b.entries[j].name
  {
    assert Distinct(b.listing[..b.next]);
    ExceptDistinct(b.listing[..b.next], b.skipped);
    EntryNamesAt(b.entries, i);
    EntryNamesAt(b.entries, j);
  }

  /** What an OK line of the log at `p` was before the append: the same line, or an entry of the batch. */
  lemma OkBefore(cfg: Config, s: System, o: Io, p: Place, i: int, n: Name)
    requires s.daemon.Log? && OkAt(Step(cfg, s, DaemonDo(o)).w, p, i, n)
    ensures OkAt(s.w, p, i, n) ||
            (var b, k := s.daemon.b, i - |LogAt(s.w, p)|;
             p == Resolve(s.w, b.mount) && 0 <= k < |b.entries| && b.entries[k].ok && b.entries[k].name == n)
  {
    StepLog(cfg, s, DaemonDo(o), p);
    hide Step, LogAt;
  }

  /** Two OK lines about one capture after the append are the same line. */
  lemma LogStepUnique(cfg: Config, s: System, o: Io, p: Place, i: int, q: Place, j: int, n: Name)
    requires s.daemon.Log? && Accounted(s.w, s.daemon) && OnceInv(s)
    requires OkAt(Step(cfg, s, DaemonDo(o)).w, p, i, n) && OkAt(Step(cfg, s, DaemonDo(o)).w, q, j, n)
    ensures p == q && i == j
  {
    hide Step, LogAt, OkAt, Books, Distinct, Evacuated, Gone;
    var b := s.daemon.b;
    OkBefore(cfg, s, o, p, i, n);
    OkBefore(cfg, s, o, q, j, n);
    if !OkAt(s.w, p, i, n) && !OkAt(s.w, q, j, n) && i != j {
      var x, y := i - |LogAt(s.w, p)|, j - |LogAt(s.w, p)|;
      EntriesDiffer(b, if x < y then x else y, if x < y then y else x);
    }
  }

  lemma LogStepOnce(cfg: Config, s: System, o: Io)
    requires s.daemon.Log? && Accounted(s.w, s.daemon) && OnceInv(s)
    requires CopiesFinal(s.w, Step(cfg, s, DaemonDo(o)).w)
    ensures OnceInv(Step(cfg, s, DaemonDo(o)))
  {
    var w' := Step(cfg, s, DaemonDo(o)).w;
    assert Step(cfg, s, DaemonDo(o)).daemon == Finished(s.daemon.b);
    LogStepGone(cfg, s, o);
    hide Step, OkAt, Accounted, OnceInv, LoggedAreGone, CopiesFinal;
    assert LoggedOnce(w') by {
      forall p, i, q, j, n | OkAt(w', p, i, n) && OkAt(w', q, j, n) ensures p == q && i == j {
        LogStepUnique(cfg, s, o, p, i, q, j, n);
      }
    }
    LogStepInv(s, w', s.daemon.b);
  }

  lemma LogStepInv(s: System, w': World, b: Batch)
    requires LoggedOnce(w') && LoggedAreGone(w')
    ensures forall mover :: OnceInv(System(w', mover, Finished(b)))
  {
    hide LoggedOnce, LoggedAreGone;
  }

  lemma LogStepGone(cfg: Config, s: System, o: Io)
    requires s.daemon.Log? && OnceInv(s) && CopiesFinal(s.w, Step(cfg, s, DaemonDo(o)).w)
    ensures LoggedAreGone(Step(cfg, s, DaemonDo(o)).w)
  {
    hide Step, LogAt, OkAt, At, Evacuated, LoggedOnce, Unlogged;
    forall p, i, n | OkAt(Step(cfg, s, DaemonDo(o)).w, p, i, n) ensures Evacuated(Step(cfg, s, DaemonDo(o)).w, n) {
      OkBefore(cfg, s, o, p, i, n);
    }
  }

  lemma StepOnce(cfg: Config, s: System, e: Event)
    requires Dependable(cfg) && Inv(cfg, s) && Admissible(cfg, s, e) && OnceInv(s) && Accounted(s.w, s.daemon)
    ensures OnceInv(Step(cfg, s, e))
  {
    if e.DaemonDo? && s.daemon.Log? {
      StepLeavesCopies(cfg, s, e);
      hide Inv, Admissible, CopiesFinal, OnceInv, Accounted, Step;
      LogStepOnce(cfg, s, e.d);
    } else {
      hide *;
      QuietStepOnce(cfg, s, e);
    }
  }

  /** Over every run, with whatever swaps, failures and restarts: on all volumes together no capture is reported as
      transferred more than once, and what is reported has left the sensor. */
  lemma {:induction false} LogsReportOnce(cfg: Config, s: System, es: seq<Event>)
    requires Sane(cfg) && Inv(cfg, s) && AdmissibleRun(cfg, s, es) && Accounted(s.w, s.daemon) && OnceInv(s)
    ensures OnceInv(Run(cfg, s, es))
  {
    if es != [] {
      SplitRun(cfg, s, es);
      SaneIsDependable(cfg);
      hide *;
      var k := |es| - 1;
      LogsReportOnce(cfg, s, es[..k]);
      RunKeeps(cfg, s, es[..k]);
      RunAccounts(cfg, s, es[..k]);
      StepOnce(cfg, Run(cfg, s, es[..k]), es[k]);
    }
  }
}
