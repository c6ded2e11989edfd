/** export_batch accounts for every file it listed, and its manifest lists exactly what it delivered. */
module Batches {
  import opened Hashing
  import opened Names
  import opened Files
  import opened Sorting
  import opened Pipeline
  import opened Frames
  import opened Order
  import opened Safety
  import opened Manifests

  function NamesOf(lines: seq<Line>): (names: seq<Name>)
    ensures |names| == |lines| && forall i :: 0 <= i < |lines| ==> names[i] == lines[i].name
  {
    seq(|lines|, i requires 0 <= i < |lines| => lines[i].name)
  }

  /** The successful entries of a log as name and logged digest, in order. */
  function OkPart(entries: seq<Entry>): seq<(Name, Option<Digest>)> {
    if entries == [] then []
    else
      var e := entries[|entries| - 1];
      OkPart(entries[..|entries| - 1]) + if e.ok then [(e.name, e.digest)] else []
  }

  /** The names of the failed entries of a log, in order. */
  function FailedPart(entries: seq<Entry>): seq<Name> {
    if entries == [] then []
    else
      var e := entries[|entries| - 1];
      FailedPart(entries[..|entries| - 1]) + if e.ok then [] else [e.name]
  }

  function EntryNames(entries: seq<Entry>): seq<Name> {
    if entries == [] then [] else EntryNames(entries[..|entries| - 1]) + [entries[|entries| - 1].name]
  }

  /** The names that are not in `drop`, in order. */
  function Except(names: seq<Name>, drop: seq<Name>): seq<Name> {
    if names == [] then []
    else
      var n := names[|names| - 1];
      Except(names[..|names| - 1], drop) + if n in drop then [] else [n]
  }

  /** Manifest lines as they appear in the log: the digest cut to 16 characters. */
  function Logged(lines: seq<Line>): seq<(Name, Option<Digest>)> {
    if lines == [] then []
    else
      var l := lines[|lines| - 1];
      Logged(lines[..|lines| - 1]) + [(l.name, Some(Take(l.digest, 16)))]
  }

  // ---------------------------------------------------------------- the books of a batch

  /** The files dealt with so far are those skipped, those transferred and those failed, each once. */
  ghost predicate Tally(b: Batch) {
    && b.next <= |b.listing|
    && multiset(b.skipped) + multiset(NamesOf(b.transferred)) + multiset(b.failed) == multiset(b.listing[..b.next])
  }

  /** The log has one entry, in listing order, for each file that was not skipped; its OK entries are the
      transferred files and its other entries the failed ones. */
  ghost predicate LogBook(b: Batch) {
    && b.next <= |b.listing|
    && EntryNames(b.entries) == Except(b.listing[..b.next], b.skipped)
    && OkPart(b.entries) == Logged(b.transferred)
    && FailedPart(b.entries) == b.failed
  }

  ghost predicate Books(b: Batch) {
    Tally(b) && LogBook(b)
  }

  /** Everything transferred has left the sensor; the log gives it size zero, having looked after the move. */
  ghost predicate Gone(w: World, b: Batch) {
    && (forall n :: n in NamesOf(b.transferred) ==> Evacuated(w, n))
    && (forall e :: e in b.entries && e.ok ==> e.size == 0)
  }

  ghost predicate HasBatch(d: Daemon) {
    !d.Idle? && !d.Polled? && !d.Listing?
  }

  ghost predicate Accounted(w: World, d: Daemon) {
    HasBatch(d) ==>
      && Distinct(d.b.listing) && Books(d.b) && Gone(w, d.b)
      && (d.Manifest? || d.Log? || d.Finished? ==> d.b.next == |d.b.listing|)
      && (d.Manifest? ==> d.b.transferred != [])
  }

  lemma {:induction false} ExceptUnrelated(names: seq<Name>, drop: seq<Name>, n: Name)
    requires n !in names
    ensures Except(names, drop + [n]) == Except(names, drop)
  {
    if names != [] {
      ExceptUnrelated(names[..|names| - 1], drop, n);
      assert names[|names| - 1] in names;
    }
  }

  lemma NextIsNew(b: Batch)
    requires Distinct(b.listing) && b.next < |b.listing|
    ensures b.listing[b.next] !in b.listing[..b.next]
    ensures b.listing[..b.next + 1] == b.listing[..b.next] + [b.listing[b.next]]
  {
  }

  lemma SkipKeepsBooks(b: Batch)
    requires Distinct(b.listing) && Books(b) && b.next < |b.listing|
    ensures Books(Skip(b))
  {
    NextIsNew(b);
    hide Distinct, NamesOf;
    SkipKeepsTally(b);
    hide Tally;
    var n, done := b.listing[b.next], b.listing[..b.next];
    ExceptUnrelated(done, b.skipped, n);
    assert (done + [n])[..|done|] == done;
    assert n in b.skipped + [n];
    assert Except(done + [n], b.skipped + [n]) == Except(done, b.skipped + [n]);
  }

  lemma SkipKeepsTally(b: Batch)
    requires Tally(b) && b.next < |b.listing| && b.listing[..b.next + 1] == b.listing[..b.next] + [b.listing[b.next]]
    ensures Tally(Skip(b))
  {
    hide NamesOf;
    var n := b.listing[b.next];
    var S, T, F := multiset(b.skipped), multiset(NamesOf(b.transferred)), multiset(b.failed);
    assert (S + multiset{n}) + T + F == (S + T + F) + multiset{n};
  }

  lemma SkippedAreListed(b: Batch, n: Name)
    requires Books(b) && n in b.skipped
    ensures n in b.listing[..b.next]
  {
    assert n in multiset(b.listing[..b.next]);
  }

  lemma EntrySnoc(entries: seq<Entry>, e: Entry)
    ensures EntryNames(entries + [e]) == EntryNames(entries) + [e.name]
    ensures OkPart(entries + [e]) == OkPart(entries) + if e.ok then [(e.name, e.digest)] else []
    ensures FailedPart(entries + [e]) == FailedPart(entries) + if e.ok then [] else [e.name]
  {
    assert (entries + [e])[..|entries|] == entries;
  }

  lemma LineSnoc(lines: seq<Line>, l: Line)
    ensures NamesOf(lines + [l]) == NamesOf(lines) + [l.name]
    ensures Logged(lines + [l]) == Logged(lines) + [(l.name, Some(Take(l.digest, 16)))]
  {
    assert (lines + [l])[..|lines|] == lines;
  }

  lemma SettleKeepsTally(w: World, b: Batch, t: Transfer)
    requires Tally(b) && b.next < |b.listing| && b.listing[..b.next + 1] == b.listing[..b.next] + [b.listing[b.next]]
    ensures Tally(Settle(w, b, t))
  {
    var n := b.listing[b.next];
    hide NamesOf, EntryFor;
    var S, T, F := multiset(b.skipped), multiset(NamesOf(b.transferred)), multiset(b.failed);
    if t.Renamed? || t.Verified? {
      LineSnoc(b.transferred, Line(n, t.sha));
      assert S + (T + multiset{n}) + F == (S + T + F) + multiset{n};
    } else {
      assert S + T + (F + multiset{n}) == (S + T + F) + multiset{n};
    }
  }

  lemma SettleKeepsBooks(w: World, b: Batch, t: Transfer)
    requires Distinct(b.listing) && Books(b) && b.next < |b.listing|
    ensures Books(Settle(w, b, t))
  {
    NextIsNew(b);
    hide Distinct;
    SettleKeepsTally(w, b, t);
    var n, done := b.listing[b.next], b.listing[..b.next];
    assert n !in b.skipped by {
      if n in b.skipped {
        SkippedAreListed(b, n);
      }
    }
    hide Tally;
    assert (done + [n])[..|done|] == done;
    assert Except(done + [n], b.skipped) == Except(done, b.skipped) + [n];
    EntrySnoc(b.entries, EntryFor(w, n, t));
    hide Except, EntryNames, OkPart, FailedPart, Logged, NamesOf;
    if t.Renamed? || t.Verified? {
      LineSnoc(b.transferred, Line(n, t.sha));
    }
  }

  // ---------------------------------------------------------------- every step

  lemma GoneSurvives(w: World, w': World, b: Batch)
    requires CopiesFinal(w, w') && Gone(w, b)
    ensures Gone(w', b)
  {
    hide Evacuated, At, NamesOf;
  }

  lemma SettleKeepsGone(w: World, b: Batch, t: Transfer)
    requires Gone(w, b) && b.next < |b.listing|
    requires t.Renamed? || t.Verified? ==> Evacuated(w, b.listing[b.next])
    ensures Gone(w, Settle(w, b, t))
  {
    var b', n := Settle(w, b, t), b.listing[b.next];
    if t.Renamed? || t.Verified? {
      LineSnoc(b.transferred, Line(n, t.sha));
    }
    hide NamesOf, Logged;
  }

  lemma ReturnedIsEvacuated(cfg: Config, s: System, b: Batch, t: Transfer)
    requires Inv(cfg, s) && s.daemon == Moving(b, t) && Returned(t) && !t.Failed?
    ensures Evacuated(s.w, b.listing[b.next])
  {
  }

  lemma ReturnAccounts(cfg: Config, s: System, b: Batch, t: Transfer)
    requires Inv(cfg, s) && s.daemon == Moving(b, t) && Returned(t) && Accounted(s.w, s.daemon)
    ensures Accounted(s.w, Continue(Settle(s.w, b, t)))
  {
    assert b.next < |b.listing|;
    hide Inv, Books, Gone, Distinct, Evacuated;
    if t.Renamed? || t.Verified? {
      ReturnedIsEvacuated(cfg, s, b, t);
    }
    SettleKeepsBooks(s.w, b, t);
    SettleKeepsGone(s.w, b, t);
    SettleAdvances(s.w, b, t);
    hide Settle;
  }

  lemma SettleAdvances(w: World, b: Batch, t: Transfer)
    requires b.next < |b.listing|
    ensures Settle(w, b, t).next == b.next + 1 && Settle(w, b, t).listing == b.listing
  {
    hide EntryFor;
  }

  lemma ListingAccounts(w: World, m: Mount, date: Date, names: seq<Name>)
    requires IsListing(names, w.backlog)
    ensures Accounted(w, Continue(Batch(m, date, SortNames(names), 0, [], [], [], [])))
  {
    SortNamesStrict(names);
    StrictlySortedIsDistinct(SortNames(names));
    NewBooks(w, Batch(m, date, SortNames(names), 0, [], [], [], []));
    hide Books, Gone, Distinct, SortNames;
  }

  lemma DaemonAccounts(cfg: Config, s: System, o: Io)
    requires Dependable(cfg) && Inv(cfg, s) && Admissible(cfg, s, DaemonDo(o)) && Accounted(s.w, s.daemon)
    ensures Accounted(Step(cfg, s, DaemonDo(o)).w, Step(cfg, s, DaemonDo(o)).daemon)
  {
    hide OrderInv, Kept, CopyOk, CopiesFinal, TransferStep, Books, Gone, Distinct, SortNames, Settle, TransferOwed;
    DaemonLeavesCopies(cfg, s, o);
    if s.daemon.Moving? {
      MovingAccounts(cfg, s, s.daemon.b, s.daemon.t, o);
    } else {
      OffTransferAccounts(cfg, s, o);
    }
  }

  lemma OffTransferAccounts(cfg: Config, s: System, o: Io)
    requires Inv(cfg, s) && Admissible(cfg, s, DaemonDo(o)) && Accounted(s.w, s.daemon) && !s.daemon.Moving?
    requires CopiesFinal(s.w, Step(cfg, s, DaemonDo(o)).w)
    ensures Accounted(Step(cfg, s, DaemonDo(o)).w, Step(cfg, s, DaemonDo(o)).daemon)
  {
    hide OrderInv, Kept, CopyOk, CopiesFinal, TransferStep, Books, Gone, Distinct, SortNames, Settle, TransferOwed;
    var w, s' := s.w, Step(cfg, s, DaemonDo(o));
    match s.daemon
    case Listing(m) =>
      if o.Listed? {
        ListingAccounts(w, m, o.date, o.names);
      }
    case AtFile(b) => SkipAccounts(w, b);
    case Manifest(b) => GoneSurvives(w, s'.w, b);
    case Log(b) => GoneSurvives(w, s'.w, b);
    case _ =>
  }

  lemma MovingAccounts(cfg: Config, s: System, b: Batch, t: Transfer, o: Io)
    requires Inv(cfg, s) && s.daemon == Moving(b, t) && Accounted(s.w, s.daemon)
    requires CopiesFinal(s.w, Step(cfg, s, DaemonDo(o)).w)
    ensures Accounted(Step(cfg, s, DaemonDo(o)).w, Step(cfg, s, DaemonDo(o)).daemon)
  {
    hide OrderInv, Kept, CopyOk, CopiesFinal, TransferStep, Books, Gone, Distinct, Settle;
    if Returned(t) {
      ReturnAccounts(cfg, s, b, t);
    } else {
      GoneSurvives(s.w, Step(cfg, s, DaemonDo(o)).w, b);
    }
  }

  lemma NewBooks(w: World, b: Batch)
    requires b.next == 0 && b.skipped == [] && b.transferred == [] && b.failed == [] && b.entries == []
    ensures Books(b) && Gone(w, b)
  {
  }

  lemma SkipAccounts(w: World, b: Batch)
    requires Distinct(b.listing) && Books(b) && Gone(w, b) && b.next < |b.listing|
    ensures Books(Skip(b)) && Gone(w, Skip(b))
  {
    SkipKeepsBooks(b);
    hide Books;
  }

  lemma StepAccounts(cfg: Config, s: System, e: Event)
    requires Dependable(cfg) && Inv(cfg, s) && Admissible(cfg, s, e) && Accounted(s.w, s.daemon)
    ensures Accounted(Step(cfg, s, e).w, Step(cfg, s, e).daemon)
  {
    if e.DaemonDo? {
      DaemonAccounts(cfg, s, e.d);
    } else {
      StepLeavesCopies(cfg, s, e);
      var s' := Step(cfg, s, e);
      assert s'.daemon == s.daemon || s'.daemon.Idle?;
      hide Step, Books, Gone, CopiesFinal;
      if HasBatch(s'.daemon) {
        GoneSurvives(s.w, s'.w, s.daemon.b);
      }
    }
  }

  lemma {:induction false} RunAccounts(cfg: Config, s: System, es: seq<Event>)
    requires Sane(cfg) && Inv(cfg, s) && AdmissibleRun(cfg, s, es) && Accounted(s.w, s.daemon)
    ensures Accounted(Run(cfg, s, es).w, Run(cfg, s, es).daemon)
  {
    if es != [] {
      SplitRun(cfg, s, es);
      SaneIsDependable(cfg);
      hide *;
      var k := |es| - 1;
      RunAccounts(cfg, s, es[..k]);
      RunKeeps(cfg, s, es[..k]);
      StepAccounts(cfg, Run(cfg, s, es[..k]), es[k]);
    }
  }

  // ---------------------------------------------------------------- where a batch comes from

  /** Event number `k` is the listing that batch `b` goes by: it was made for the mount and on the date of the batch, and
      what the batch lists, in strictly ascending order, is what was in the backlog then, all of it and nothing else. */
  ghost predicate Origin(cfg: Config, s: System, es: seq<Event>, b: Batch, k: nat) {
    && k < |es| && Run(cfg, s, es[..k]).daemon == Listing(b.mount)
    && es[k].DaemonDo? && es[k].d.Listed? && es[k].d.date == b.date
    && StrictlySorted(b.listing)
    && forall n :: n in b.listing <==> n in Run(cfg, s, es[..k]).w.backlog
  }

  lemma ListingStep(cfg: Config, s: System, o: Io)
    requires s.daemon.Listing? && Admissible(cfg, s, DaemonDo(o)) && HasBatch(Step(cfg, s, DaemonDo(o)).daemon)
    ensures var b := Step(cfg, s, DaemonDo(o)).daemon.b;
            && o.Listed? && b.mount == s.daemon.mount && b.date == o.date && StrictlySorted(b.listing)
            && (forall n :: n in b.listing <==> n in s.w.backlog)
            && b.skipped == [] && b.transferred == [] && b.failed == [] && b.entries == []
  {
    SortNamesStrict(o.names);
    hide SortNames;
  }

  /** Any other event leaves a batch with the mount, the date and the listing it had. */
  lemma BatchStep(cfg: Config, s: System, e: Event)
    requires HasBatch(Step(cfg, s, e).daemon) && !(e.DaemonDo? && s.daemon.Listing?)
    ensures HasBatch(s.daemon)
    ensures var b, b' := s.daemon.b, Step(cfg, s, e).daemon.b;
            b'.mount == b.mount && b'.date == b.date && b'.listing == b.listing
  {
    hide TransferStep, MoverStep, EntryFor;
  }

  lemma OriginLater(cfg: Config, s: System, es: seq<Event>, last: nat, b: Batch, b': Batch, k: nat)
    requires last <= |es| && Origin(cfg, s, es[..last], b, k)
    requires b'.mount == b.mount && b'.date == b.date && b'.listing == b.listing
    ensures Origin(cfg, s, es, b', k)
  {
    assert es[..last][..k] == es[..k];
    hide Run;
  }

  lemma OriginNow(cfg: Config, s: System, es: seq<Event>)
    requires es != [] && Admissible(cfg, Run(cfg, s, es[..|es| - 1]), es[|es| - 1])
    requires Run(cfg, s, es[..|es| - 1]).daemon.Listing? && es[|es| - 1].DaemonDo?
    requires HasBatch(Step(cfg, Run(cfg, s, es[..|es| - 1]), es[|es| - 1]).daemon)
    ensures Origin(cfg, s, es, Step(cfg, Run(cfg, s, es[..|es| - 1]), es[|es| - 1]).daemon.b, |es| - 1)
  {
    hide Run, Step, Admissible, StrictlySorted;
    ListingStep(cfg, Run(cfg, s, es[..|es| - 1]), es[|es| - 1].d);
  }

  /** Over every run that starts outside a batch, a batch goes by a listing of the whole backlog. */
  lemma {:induction false} BatchOrigin(cfg: Config, s: System, es: seq<Event>) returns (k: nat)
    requires AdmissibleRun(cfg, s, es) && !HasBatch(s.daemon) && HasBatch(Run(cfg, s, es).daemon)
    ensures Origin(cfg, s, es, Run(cfg, s, es).daemon.b, k)
  {
    if es == [] {
      assert false;
    }
    var last := |es| - 1;
    SplitRun(cfg, s, es);
    hide AdmissibleRun, Run, Step, Admissible, Origin;
    var s' := Run(cfg, s, es[..last]);
    if s'.daemon.Listing? && es[last].DaemonDo? {
      k := last;
      OriginNow(cfg, s, es);
    } else {
      BatchStep(cfg, s', es[last]);
      k := BatchOrigin(cfg, s, es[..last]);
      OriginLater(cfg, s, es, last, s'.daemon.b, Run(cfg, s, es).daemon.b, k);
    }
  }

  // ---------------------------------------------------------------- results

  /** A finished batch, in any run: its listing is split into skipped, succeeded and failed files; counters,
      log entries and OK entries match those parts; what succeeded is gone from the sensor, and a listed file
      still in the backlog was skipped or failed. If the batch began in this run, `k` is its listing, and every file that
      was in the backlog then has been evacuated, skipped or failed. */
  lemma BatchConserves(cfg: Config, s: System, es: seq<Event>, b: Batch) returns (k: nat)
    requires Sane(cfg) && Inv(cfg, s) && AdmissibleRun(cfg, s, es) && Accounted(s.w, s.daemon)
    requires Run(cfg, s, es).daemon == Finished(b)
    ensures multiset(b.skipped) + multiset(NamesOf(b.transferred)) + multiset(b.failed) == multiset(b.listing)
    ensures |b.entries| == |b.transferred| + |b.failed| == |b.listing| - |b.skipped|
    ensures EntryNames(b.entries) == Except(b.listing, b.skipped)
    ensures OkPart(b.entries) == Logged(b.transferred) && FailedPart(b.entries) == b.failed
    ensures forall n :: n in NamesOf(b.transferred) ==> Evacuated(Run(cfg, s, es).w, n)
    ensures forall n :: n in b.listing && n in Run(cfg, s, es).w.backlog ==> n in b.skipped || n in b.failed
    ensures forall e :: e in b.entries && e.ok ==> e.size == 0
    ensures !HasBatch(s.daemon) ==> Origin(cfg, s, es, b, k)
    ensures !HasBatch(s.daemon) ==>
              forall n :: n in Run(cfg, s, es[..k]).w.backlog ==>
                n in b.skipped || n in b.failed || (n in NamesOf(b.transferred) && Evacuated(Run(cfg, s, es).w, n))
  {
    hide *;
    k := 0;
    RunAccounts(cfg, s, es);
    FinishedBooks(Run(cfg, s, es).w, b);
    if !HasBatch(s.daemon) {
      FinishedHasBatch(b);
      k := BatchOrigin(cfg, s, es);
      OriginCovers(cfg, s, es, b, k);
    }
  }

  lemma FinishedHasBatch(b: Batch)
    ensures HasBatch(Finished(b))
  {
  }

  lemma OriginCovers(cfg: Config, s: System, es: seq<Event>, b: Batch, k: nat)
    requires Origin(cfg, s, es, b, k)
    ensures k < |es| && forall n :: n in Run(cfg, s, es[..k]).w.backlog ==> n in b.listing
  {
    hide Run;
  }

  /** The books of a batch that is done. */
  lemma FinishedBooks(w: World, b: Batch)
    requires Accounted(w, Finished(b))
    ensures multiset(b.skipped) + multiset(NamesOf(b.transferred)) + multiset(b.failed) == multiset(b.listing)
    ensures |b.entries| == |b.transferred| + |b.failed| == |b.listing| - |b.skipped|
    ensures EntryNames(b.entries) == Except(b.listing, b.skipped)
    ensures OkPart(b.entries) == Logged(b.transferred) && FailedPart(b.entries) == b.failed
    ensures forall n :: n in NamesOf(b.transferred) ==> Evacuated(w, n)
    ensures forall n :: n in b.listing ==> n in b.skipped || n in b.failed || n in NamesOf(b.transferred)
    ensures forall n :: n in b.listing && n in w.backlog ==> n in b.skipped || n in b.failed
    ensures forall e :: e in b.entries && e.ok ==> e.size == 0
  {
    assert b.listing[..b.next] == b.listing;
    PartsAddUp(b.entries);
    LoggedLength(b.transferred);
    assert |multiset(b.listing)| == |b.skipped| + |b.transferred| + |b.failed|;
    forall n | n in b.listing ensures n in b.skipped || n in b.failed || n in NamesOf(b.transferred) {
      assert n in multiset(b.listing);
    }
  }

  lemma {:induction false} PartsAddUp(entries: seq<Entry>)
    ensures |OkPart(entries)| + |FailedPart(entries)| == |entries|
  {
    if entries != [] {
      PartsAddUp(entries[..|entries| - 1]);
    }
  }

  lemma {:induction false} LoggedLength(lines: seq<Line>)
    ensures |Logged(lines)| == |lines|
  {
    if lines != [] {
      LoggedLength(lines[..|lines| - 1]);
    }
  }

  lemma TransferredAreDistinct(b: Batch)
    requires Distinct(b.listing) && Books(b)
    ensures Distinct(NamesOf(b.transferred))
  {
    var names, done := NamesOf(b.transferred), b.listing[..b.next];
    assert Distinct(done);
    forall i, j | 0 <= i < j < |names| ensures names[i] != names[j] {
      DistinctCounts(done, names[i]);
      assert names == names[..j] + [names[j]] + names[j + 1..];
      assert names[i] in names[..j];
      assert multiset(names)[names[i]] <= multiset(done)[names[i]];
    }
  }

  lemma {:induction false} InsertByName(l: Line, lines: seq<Line>)
    ensures NamesOf(Insert(ByName(), l, lines)) == Insert(Ascending(), l.name, NamesOf(lines))
  {
    if lines == [] || ByName()(l, lines[0]) {
    } else {
      InsertByName(l, lines[1..]);
      assert NamesOf(lines)[1..] == NamesOf(lines[1..]);
    }
  }

  /** Sorting manifest lines sorts their names. */
  lemma {:induction false} SortByName(lines: seq<Line>)
    ensures NamesOf(SortBy(ByName(), lines)) == SortNames(NamesOf(lines))
  {
    if lines != [] {
      SortByName(lines[1..]);
      InsertByName(lines[0], SortBy(ByName(), lines[1..]));
      assert NamesOf(lines)[1..] == NamesOf(lines[1..]);
    }
  }

  lemma SortedLinesAreStrict(lines: seq<Line>)
    requires Distinct(NamesOf(lines))
    ensures StrictlySorted(NamesOf(SortBy(ByName(), lines)))
    ensures multiset(SortBy(ByName(), lines)) == multiset(lines)
  {
    ByNameIsTotal();
    SortIsSortedPermutation(ByName(), lines);
    SortByName(lines);
    SortNamesStrict(NamesOf(lines));
  }

  /** After a batch with a success and a completed manifest write on a mount that did not change, the manifest
      holds exactly the transferred files, in strictly ascending order of name, each with the digest of the
      file that is now at its destination. */
  lemma ManifestMatchesBatch(cfg: Config, s: System, es: seq<Event>, b: Batch)
    requires Sane(cfg) && Inv(cfg, s) && Truthful(cfg, s) && Accounted(s.w, s.daemon)
    requires AdmissibleRun(cfg, s, es) && SteadyRun(cfg, s, es) && Run(cfg, s, es).daemon == Manifest(b)
    ensures var w := Run(cfg, s, es + [DaemonDo(Done)]).w;
            var lines := ManifestAt(w.stores, Resolve(w, b.mount), b.date);
            && multiset(lines) == multiset(b.transferred)
            && StrictlySorted(NamesOf(lines))
            && LinesTrue(cfg, w, Resolve(w, b.mount), b.date, lines)
  {
    var s' := Run(cfg, s, es);
    RunKeeps(cfg, s, es);
    ManifestsStayTrue(cfg, s, es);
    RunAccounts(cfg, s, es);
    RunSnoc(cfg, s, es, DaemonDo(Done));
    hide Run, Inv, BatchTrue, ManifestsTrue;
    TransferredAreDistinct(b);
    SortedLinesAreStrict(b.transferred);
    WrittenManifest(cfg, s', b);
  }

  lemma WrittenManifest(cfg: Config, s: System, b: Batch)
    requires s.daemon == Manifest(b) && b.transferred != [] && Truthful(cfg, s)
    ensures var w := Step(cfg, s, DaemonDo(Done)).w;
            && ManifestAt(w.stores, Resolve(w, b.mount), b.date) == SortBy(ByName(), b.transferred)
            && LinesTrue(cfg, w, Resolve(w, b.mount), b.date, SortBy(ByName(), b.transferred))
  {
    WriteKeepsTruth(cfg, s.w, b, Done);
    hide LinesTrue;
    var w := Step(cfg, s, DaemonDo(Done)).w;
    assert LinesTrue(cfg, w, Resolve(w, b.mount), b.date, ManifestAt(w.stores, Resolve(w, b.mount), b.date));
  }

  // ---------------------------------------------------------------- only files that have settled

  /** The source of a transfer under way has not been written to for one and a half rotations. */
  ghost predicate SettledSource(cfg: Config, w: World, d: Daemon) {
    d.Moving? && d.b.next < |d.b.listing| && d.b.listing[d.b.next] in w.backlog ==>
      2 * (w.clock - w.backlog[d.b.listing[d.b.next]].mtime) >= 3 * cfg.rotateSeconds * 1_000_000_000
  }

  lemma TransferSource(cfg: Config, w: World, job: Job, t: Transfer, o: Io)
    ensures var w' := TransferStep(cfg, w, job, t, o).0;
            && w'.clock == w.clock
            && (job.name in w'.backlog ==> job.name in w.backlog && w'.backlog[job.name] == w.backlog[job.name])
  {
  }

  lemma StepSettledSource(cfg: Config, s: System, e: Event)
    requires Dependable(cfg) && Inv(cfg, s) && Admissible(cfg, s, e) && SettledSource(cfg, s.w, s.daemon)
    ensures SettledSource(cfg, Step(cfg, s, e).w, Step(cfg, s, e).daemon)
  {
    var s' := Step(cfg, s, e);
    if e.DaemonDo? {
      hide Inv, Admissible;
      if s.daemon.Moving? {
        TransferSource(cfg, s.w, JobOf(s.daemon.b), s.daemon.t, e.d);
        hide TransferStep;
      }
    } else {
      OthersAge(cfg, s, e);
    }
  }

  lemma OthersAge(cfg: Config, s: System, e: Event)
    requires Dependable(cfg) && Inv(cfg, s) && Admissible(cfg, s, e) && SettledSource(cfg, s.w, s.daemon) && !e.DaemonDo?
    ensures SettledSource(cfg, Step(cfg, s, e).w, Step(cfg, s, e).daemon)
  {
    StepLeavesCopies(cfg, s, e);
    ClockOnlyAdvances(cfg, s, e);
    var s' := Step(cfg, s, e);
    assert s'.daemon == s.daemon || s'.daemon.Idle?;
    hide Step, OrderInv, AllKept, BacklogKnown, CopyOk, Admissible, At;
    if s'.daemon.Moving? {
      var n := s.daemon.b.listing[s.daemon.b.next];
      assert n in s.w.backlog || Evacuated(s.w, n);
    }
  }

  lemma ClockOnlyAdvances(cfg: Config, s: System, e: Event)
    ensures Step(cfg, s, e).w.clock >= s.w.clock
  {
    if e.MoverDo? {
      MoverKeepsHistory(cfg, s.w, s.mover, e.m);
      hide MoverStep;
    } else if e.DaemonDo? {
      DaemonKeepsHistory(cfg, s.w, s.daemon, e.d);
      hide DaemonStep;
    }
  }

  /** Over every run, no transfer touches a file that was written to within the last one and a half rotations. */
  lemma {:induction false} OnlySettledFilesMove(cfg: Config, s: System, es: seq<Event>)
    requires Sane(cfg) && Inv(cfg, s) && AdmissibleRun(cfg, s, es) && SettledSource(cfg, s.w, s.daemon)
    ensures SettledSource(cfg, Run(cfg, s, es).w, Run(cfg, s, es).daemon)
  {
    if es != [] {
      SplitRun(cfg, s, es);
      SaneIsDependable(cfg);
      hide *;
      var k := |es| - 1;
      OnlySettledFilesMove(cfg, s, es[..k]);
      RunKeeps(cfg, s, es[..k]);
      StepSettledSource(cfg, Run(cfg, s, es[..k]), es[k]);
    }
  }
}
