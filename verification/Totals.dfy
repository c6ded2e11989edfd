/** What main_loop counts, against what happens: transfers, batches and sightings of a drive along any run. */
module Totals {
  import opened Files
  import opened Names
  import opened Pipeline

  // ---------------------------------------------------------------- transfers

  /** transfer_file has just returned with success. */
  predicate Succeeded(d: Daemon) {
    d.Moving? && (d.t.Renamed? || d.t.Verified?)
  }

  /** Files whose transfer has succeeded in the batch under way. */
  function Successes(d: Daemon): nat {
    match d
    case AtFile(b) => |b.transferred|
    case Moving(b, t) => |b.transferred| + if Succeeded(d) then 1 else 0
    case Manifest(b) => |b.transferred|
    case Log(b) => |b.transferred|
    case Finished(b) => |b.transferred|
    case _ => 0
  }

  function ExportedBy(cfg: Config, s: System, e: Event): nat {
    if e.DaemonDo? && !Succeeded(s.daemon) && Succeeded(Step(cfg, s, e).daemon) then 1 else 0
  }

  /** main_loop adds a finished batch to total_exported. */
  function BookedBy(s: System, e: Event): nat {
    if e.DaemonDo? && s.daemon.Finished? then Successes(s.daemon) else 0
  }

  /** The call that looks at the source to log an attempt raises, or the daemon is killed: the batch ends there. */
  predicate CutsShort(s: System, e: Event) {
    (e.DaemonDo? && s.daemon.Moving? && Returned(s.daemon.t) && !e.d.Done?) || e.DaemonKilled?
  }

  function MissedBy(s: System, e: Event): nat {
    if CutsShort(s, e) then Successes(s.daemon) else 0
  }

  /** Transfers that succeeded during the run. */
  function Exported(cfg: Config, s: System, es: seq<Event>): nat {
    if es == [] then 0
    else
      var k := |es| - 1;
      Exported(cfg, s, es[..k]) + ExportedBy(cfg, Run(cfg, s, es[..k]), es[k])
  }

  /** What main_loop added to total_exported during the run. */
  function Booked(cfg: Config, s: System, es: seq<Event>): nat {
    if es == [] then 0
    else
      var k := |es| - 1;
      Booked(cfg, s, es[..k]) + BookedBy(Run(cfg, s, es[..k]), es[k])
  }

  /** Transfers of batches that were cut short during the run. */
  function Missed(cfg: Config, s: System, es: seq<Event>): nat {
    if es == [] then 0
    else
      var k := |es| - 1;
      Missed(cfg, s, es[..k]) + MissedBy(Run(cfg, s, es[..k]), es[k])
  }

  predicate InRange(d: Daemon) {
    d.AtFile? || d.Moving? ==> d.b.next < |d.b.listing|
  }

  lemma StepTotals(cfg: Config, s: System, e: Event)
    requires InRange(s.daemon)
    ensures var d' := Step(cfg, s, e).daemon;
            && InRange(d')
            && ExportedBy(cfg, s, e) + Successes(s.daemon) == BookedBy(s, e) + MissedBy(s, e) + Successes(d')
  {
    hide TransferStep, MoverStep, EntryFor, SortNames;
    if e.DaemonDo? {
      if s.daemon.Moving? {
        MovingTotals(cfg, s, e.d);
      } else {
        hide Settle;
      }
    }
  }

  lemma MovingTotals(cfg: Config, s: System, o: Io)
    requires s.daemon.Moving? && InRange(s.daemon)
    ensures var d' := Step(cfg, s, DaemonDo(o)).daemon;
            var e := DaemonDo(o);
            && InRange(d')
            && ExportedBy(cfg, s, e) + Successes(s.daemon) == BookedBy(s, e) + MissedBy(s, e) + Successes(d')
  {
    hide TransferStep, EntryFor;
  }

  /** Over every run: each transfer that succeeded has been added to the total, belongs to a batch that was cut short, or
      belongs to the batch under way. */
  lemma {:induction false} TransfersAreAccounted(cfg: Config, s: System, es: seq<Event>)
    requires InRange(s.daemon)
    ensures var d := Run(cfg, s, es).daemon;
            && InRange(d)
            && Exported(cfg, s, es) + Successes(s.daemon) == Booked(cfg, s, es) + Missed(cfg, s, es) + Successes(d)
  {
    if es != [] {
      var k := |es| - 1;
      TransfersAreAccounted(cfg, s, es[..k]);
      StepTotals(cfg, Run(cfg, s, es[..k]), es[k]);
      hide Step, ExportedBy, BookedBy, MissedBy, Successes, InRange;
    }
  }

  /** No batch that has transferred something is cut short. */
  ghost predicate NoneCutShort(cfg: Config, s: System, es: seq<Event>) {
    forall k :: 0 <= k < |es| && CutsShort(Run(cfg, s, es[..k]), es[k]) ==> Successes(Run(cfg, s, es[..k]).daemon) == 0
  }

  lemma {:induction false} MissedIsZeroIff(cfg: Config, s: System, es: seq<Event>)
    ensures Missed(cfg, s, es) == 0 <==> NoneCutShort(cfg, s, es)
  {
    hide Run, Successes, CutsShort, MissedBy;
    if es != [] {
      hide NoneCutShort;
      MissedIsZeroIff(cfg, s, es[..|es| - 1]);
      NoneCutShortSnoc(cfg, s, es);
    }
  }

  lemma NoneCutShortSnoc(cfg: Config, s: System, es: seq<Event>)
    requires es != []
    ensures var k := |es| - 1;
            NoneCutShort(cfg, s, es) <==>
              NoneCutShort(cfg, s, es[..k]) && MissedBy(Run(cfg, s, es[..k]), es[k]) == 0
  {
    hide Run, Successes, CutsShort;
    var k := |es| - 1;
    if NoneCutShort(cfg, s, es) {
      forall i | 0 <= i < k && CutsShort(Run(cfg, s, es[..k][..i]), es[..k][i])
        ensures Successes(Run(cfg, s, es[..k][..i]).daemon) == 0
      {
        assert es[..k][..i] == es[..i];
      }
    } else {
      var i :| 0 <= i < |es| && CutsShort(Run(cfg, s, es[..i]), es[i]) && Successes(Run(cfg, s, es[..i]).daemon) != 0;
      if i < k {
        assert es[..k][..i] == es[..i] && es[..k][i] == es[i];
      }
    }
  }

  /** From the top of the loop to the top of the loop, what was added to the total is the number of transfers if and only
      if no batch that had transferred something was cut short; otherwise it is less. */
  lemma BookedIsRightIff(cfg: Config, s: System, es: seq<Event>)
    requires s.daemon.Idle? && Run(cfg, s, es).daemon.Idle?
    ensures Booked(cfg, s, es) == Exported(cfg, s, es) <==> NoneCutShort(cfg, s, es)
    ensures Booked(cfg, s, es) <= Exported(cfg, s, es)
  {
    hide Exported, Booked, Missed, Run, NoneCutShort;
    TransfersAreAccounted(cfg, s, es);
    MissedIsZeroIff(cfg, s, es);
  }

  /** total_exported of the process that is running: a restart begins again at zero. */
  function Total(cfg: Config, s: System, es: seq<Event>): nat {
    if es == [] then 0
    else
      var k := |es| - 1;
      if es[k].DaemonKilled? then 0 else Total(cfg, s, es[..k]) + BookedBy(Run(cfg, s, es[..k]), es[k])
  }

  /** How many events had happened when that process started. */
  function LastStart(es: seq<Event>): (k: nat)
    ensures k <= |es| && (k > 0 ==> es[k - 1].DaemonKilled?) && forall i :: k <= i < |es| ==> !es[i].DaemonKilled?
  {
    if es == [] then 0 else if es[|es| - 1].DaemonKilled? then |es| else LastStart(es[..|es| - 1])
  }

  lemma BookedSnoc(cfg: Config, s: System, es: seq<Event>, e: Event)
    ensures Booked(cfg, s, es + [e]) == Booked(cfg, s, es) + BookedBy(Run(cfg, s, es), e)
  {
    assert (es + [e])[..|es|] == es;
  }

  lemma TotalStep(cfg: Config, s: System, es: seq<Event>)
    requires es != []
    ensures var k := |es| - 1;
            if es[k].DaemonKilled? then Total(cfg, s, es) == 0 && LastStart(es) == |es|
            else
              && Total(cfg, s, es) == Total(cfg, s, es[..k]) + BookedBy(Run(cfg, s, es[..k]), es[k])
              && LastStart(es) == LastStart(es[..k])
  {
    hide Run, BookedBy;
  }

  lemma NothingYet(cfg: Config, s: System)
    ensures Total(cfg, s, []) == 0 && Booked(cfg, s, []) == 0
  {
  }

  lemma {:induction false} TotalIsBooked(cfg: Config, s: System, es: seq<Event>)
    ensures var k := LastStart(es); Total(cfg, s, es) == Booked(cfg, Run(cfg, s, es[..k]), es[k..])
  {
    hide *;
    var k := LastStart(es);
    if es == [] {
      NothingYet(cfg, s);
      NothingYet(cfg, Run(cfg, s, es[..k]));
      assert es[k..] == [];
    } else {
      TotalStep(cfg, s, es);
      var last := |es| - 1;
      if es[last].DaemonKilled? {
        NothingYet(cfg, Run(cfg, s, es[..k]));
        assert es[k..] == [];
      } else {
        TotalIsBooked(cfg, s, es[..last]);
        assert es[..last][..k] == es[..k] && es[..last][k..] == es[k..last];
        assert es[..k] + es[k..last] == es[..last] && es[k..] == es[k..last] + [es[last]];
        RunAppend(cfg, s, es[..k], es[k..last]);
        BookedSnoc(cfg, Run(cfg, s, es[..k]), es[k..last], es[last]);
      }
    }
  }

  /** At the top of the loop, total_exported is the number of transfers since the daemon was last started if and only if
      no batch that had transferred something has been cut short since; otherwise it is less. */
  lemma TotalIsRightIff(cfg: Config, s: System, es: seq<Event>)
    requires s.daemon.Idle? && Run(cfg, s, es).daemon.Idle?
    ensures var k := LastStart(es);
            var s' := Run(cfg, s, es[..k]);
            && (Total(cfg, s, es) == Exported(cfg, s', es[k..]) <==> NoneCutShort(cfg, s', es[k..]))
            && Total(cfg, s, es) <= Exported(cfg, s', es[k..])
  {
    hide *;
    var k := LastStart(es);
    StartIsIdle(cfg, s, es, k);
    TotalIsBooked(cfg, s, es);
    assert es[..k] + es[k..] == es;
    RunAppend(cfg, s, es[..k], es[k..]);
    BookedIsRightIff(cfg, Run(cfg, s, es[..k]), es[k..]);
  }

  lemma StartIsIdle(cfg: Config, s: System, es: seq<Event>, k: nat)
    requires s.daemon.Idle? && k <= |es| && (k > 0 ==> es[k - 1].DaemonKilled?)
    ensures Run(cfg, s, es[..k]).daemon.Idle?
  {
    if k > 0 {
      assert es[..k] == es[..k - 1] + [es[k - 1]];
      RunSnoc(cfg, s, es[..k - 1], es[k - 1]);
    }
  }

  // ---------------------------------------------------------------- a batch that was cut short is retried

  /** Waiting for a drive: none was there at the last look. */
  predicate Waiting(d: Daemon) {
    d == Idle(false) || d == Polled(false)
  }

  /** The daemon looks for a drive and finds none. */
  predicate FindsNone(s: System, e: Event) {
    e.DaemonDo? && s.daemon.Idle? && e.d.Seen? ==> e.d.at.None?
  }

  lemma StepWaits(cfg: Config, s: System, e: Event)
    requires Waiting(s.daemon) && FindsNone(s, e)
    ensures Waiting(Step(cfg, s, e).daemon)
  {
    hide MoverStep;
  }

  lemma {:induction false} KeepsWaiting(cfg: Config, s: System, es: seq<Event>, k: nat)
    requires k <= |es| && Waiting(Run(cfg, s, es[..k]).daemon)
    requires forall j :: k <= j < |es| ==> FindsNone(Run(cfg, s, es[..j]), es[j])
    ensures Waiting(Run(cfg, s, es).daemon)
    decreases |es|
  {
    if k < |es| {
      var last := |es| - 1;
      forall j | k <= j < last ensures FindsNone(Run(cfg, s, es[..last][..j]), es[..last][j]) {
        assert es[..last][..j] == es[..j];
      }
      assert es[..last][..k] == es[..k];
      KeepsWaiting(cfg, s, es[..last], k);
      StepWaits(cfg, Run(cfg, s, es[..last]), es[last]);
    } else {
      assert es[..k] == es;
    }
  }

  /** Over every run: after an event that cut a batch short, the next look that finds a drive starts a batch on it. */
  lemma CutShortIsRetried(cfg: Config, s: System, es: seq<Event>, k: nat, m: Mount, date: Date)
    requires k < |es| && CutsShort(Run(cfg, s, es[..k]), es[k])
    requires forall j :: k < j < |es| ==> FindsNone(Run(cfg, s, es[..j]), es[j])
    requires Run(cfg, s, es).daemon.Idle?
    ensures Run(cfg, s, es + [DaemonDo(Seen(Some(m), date))]).daemon == Listing(m)
  {
    hide Run, Step, CutsShort;
    assert es[..k + 1] == es[..k] + [es[k]];
    RunSnoc(cfg, s, es[..k], es[k]);
    CutShortWaits(cfg, Run(cfg, s, es[..k]), es[k]);
    KeepsWaiting(cfg, s, es, k + 1);
    RunSnoc(cfg, s, es, DaemonDo(Seen(Some(m), date)));
    SeenStarts(cfg, Run(cfg, s, es), m, date);
  }

  lemma CutShortWaits(cfg: Config, s: System, e: Event)
    requires CutsShort(s, e)
    ensures Waiting(Step(cfg, s, e).daemon)
  {
  }

  lemma SeenStarts(cfg: Config, s: System, m: Mount, date: Date)
    requires s.daemon == Idle(false)
    ensures Step(cfg, s, DaemonDo(Seen(Some(m), date))).daemon == Listing(m)
  {
  }

  // ---------------------------------------------------------------- batches

  /** Batches that ran to the end. */
  function Finishes(cfg: Config, s: System, es: seq<Event>): nat {
    if es == [] then 0
    else
      var k := |es| - 1;
      Finishes(cfg, s, es[..k]) + if es[k].DaemonDo? && Run(cfg, s, es[..k]).daemon.Finished? then 1 else 0
  }

  /** Whether a drive was there, as seen by a pass that ends with this event; a restart forgets the drive. */
  function SeenBy(d: Daemon, e: Event): seq<bool> {
    if e.DaemonKilled? then [false]
    else if e.DaemonDo? && d.Polled? then [d.seen]
    else if e.DaemonDo? && d.Finished? then [true]
    else []
  }

  function Sightings(cfg: Config, s: System, es: seq<Event>): seq<bool> {
    if es == [] then []
    else
      var k := |es| - 1;
      Sightings(cfg, s, es[..k]) + SeenBy(Run(cfg, s, es[..k]).daemon, es[k])
  }

  predicate EdgeAt(seen: seq<bool>, i: nat) {
    i < |seen| && seen[i] && (i == 0 || !seen[i - 1])
  }

  /** Changes from absent to present in a sequence of observations that starts from absent. */
  function Edges(seen: seq<bool>): nat {
    |set i | 0 <= i < |seen| && EdgeAt(seen, i)|
  }

  predicate LastSeen(seen: seq<bool>) {
    seen != [] && seen[|seen| - 1]
  }

  lemma EdgesSnoc(seen: seq<bool>, b: bool)
    ensures Edges(seen + [b]) == Edges(seen) + if b && !LastSeen(seen) then 1 else 0
  {
    var all := seen + [b];
    var before := set i | 0 <= i < |seen| && EdgeAt(seen, i);
    var after := set i | 0 <= i < |all| && EdgeAt(all, i);
    assert forall i :: 0 <= i < |seen| ==> EdgeAt(all, i) == EdgeAt(seen, i);
    if EdgeAt(all, |seen|) {
      assert after == before + {|seen|};
    } else {
      assert after == before;
    }
  }

  /** What the position in the loop says about the last sighting: a batch runs only if no drive had been seen. */
  predicate Remembers(d: Daemon, last: bool) {
    match d
    case Idle(l) => l == last
    case Polled(seen) => seen ==> last
    case _ => !last
  }

  lemma StepRemembers(cfg: Config, s: System, e: Event, seen: seq<bool>)
    requires Remembers(s.daemon, LastSeen(seen))
    ensures Remembers(Step(cfg, s, e).daemon, LastSeen(seen + SeenBy(s.daemon, e)))
    ensures Edges(seen + SeenBy(s.daemon, e)) == Edges(seen) + if e.DaemonDo? && s.daemon.Finished? then 1 else 0
  {
    var more := SeenBy(s.daemon, e);
    if more != [] {
      EdgesSnoc(seen, more[0]);
      assert more == [more[0]];
    } else {
      assert seen + more == seen;
    }
    hide TransferStep, MoverStep, Edges, Settle, SortNames;
    if e.DaemonDo? {
      DaemonRemembers(cfg, s, e.d, LastSeen(seen));
    }
    hide DaemonStep;
  }

  lemma DaemonRemembers(cfg: Config, s: System, o: Io, last: bool)
    requires Remembers(s.daemon, last)
    ensures var more := SeenBy(s.daemon, DaemonDo(o));
            Remembers(Step(cfg, s, DaemonDo(o)).daemon, if more == [] then last else more[0])
  {
    hide TransferStep, Settle, SortNames;
  }

  /** Over every run: the batches that ran to the end are the changes from absent to present among the sightings of passes
      that ran to the end, whatever raised in between. */
  lemma {:induction false} BatchesAreEdges(cfg: Config, s: System, es: seq<Event>)
    requires s.daemon == Idle(false)
    ensures Finishes(cfg, s, es) == Edges(Sightings(cfg, s, es))
    ensures Remembers(Run(cfg, s, es).daemon, LastSeen(Sightings(cfg, s, es)))
  {
    if es != [] {
      var k := |es| - 1;
      BatchesAreEdges(cfg, s, es[..k]);
      StepRemembers(cfg, Run(cfg, s, es[..k]), es[k], Sightings(cfg, s, es[..k]));
      hide Step, Edges, SeenBy, LastSeen, Remembers;
    }
  }
}
