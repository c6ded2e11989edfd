/** seer_hotswap.py as it is written: a program over the sensor's files, one system call after the other.
    Each method is proved to be a path of the transition system, so what holds of every run holds of it. */
module Hotswap {
  import opened Hashing
  import opened Names
  import opened Files
  import opened Sorting
  import opened Pipeline
  import opened Safety
  import opened Manifests
  import opened Batches
  import opened Transfers
  import opened Schedules
  import opened MainLoop
  import opened Totals

  /** How the write of the state file turns out. */
  function SaveOf(o: Io): Save {
    if o.Done? then Saved else if o.Torn? then Spoiled else Kept
  }

  /** What the pass of main_loop made by calls `i` up to `j` amounts to: the first call looks for a drive, and a
      pass that runs to the end closes with the state-file write. */
  ghost function PassOf(cfg: Config, env: nat -> Turn, i: nat, j: nat, s: System): Pass
    requires i < j
  {
    var seen, before := env(i).io, Play(cfg, TheDaemon, env, i, j - 1, s).daemon;
    if seen.Seen? && (before.Finished? || before.Polled?)
    then Normal(seen.at.Some?, Successes(before), SaveOf(env(j - 1).io))
    else Escaped(Successes(before))
  }

  // ---------------------------------------------------------------- what is added to the total

  /** What the calls from `i` up to `j` add to total_exported. */
  ghost function PlayBooked(cfg: Config, env: nat -> Turn, i: nat, j: nat, s: System): nat
    requires i <= j
    decreases j - i
  {
    if i == j then 0
    else
      var d := Play(cfg, TheDaemon, env, i, j - 1, s).daemon;
      PlayBooked(cfg, env, i, j - 1, s) + if d.Finished? then Successes(d) else 0
  }

  lemma {:induction false} PlayBookedAppend(cfg: Config, env: nat -> Turn, i: nat, j: nat, k: nat, s: System)
    requires i <= j <= k
    ensures PlayBooked(cfg, env, i, k, s) ==
            PlayBooked(cfg, env, i, j, s) + PlayBooked(cfg, env, j, k, Play(cfg, TheDaemon, env, i, j, s))
    decreases k - j
  {
    hide *;
    if j < k {
      PlayBookedStep(cfg, env, i, k, s);
      PlayBookedStep(cfg, env, j, k, Play(cfg, TheDaemon, env, i, j, s));
      PlayBookedAppend(cfg, env, i, j, k - 1, s);
      PlayAppend(cfg, TheDaemon, env, i, j, k - 1, s);
    } else {
      PlayBookedNone(cfg, env, j, Play(cfg, TheDaemon, env, i, j, s));
    }
  }

  lemma PlayBookedNone(cfg: Config, env: nat -> Turn, i: nat, s: System)
    ensures PlayBooked(cfg, env, i, i, s) == 0
  {
  }

  lemma PlayBookedStep(cfg: Config, env: nat -> Turn, i: nat, j: nat, s: System)
    requires i < j
    ensures var d := Play(cfg, TheDaemon, env, i, j - 1, s).daemon;
            PlayBooked(cfg, env, i, j, s) == PlayBooked(cfg, env, i, j - 1, s) + if d.Finished? then Successes(d) else 0
  {
    hide Play, Successes;
  }

  lemma OtherBooksNothing(s: System, e: Event)
    requires ByOthers(TheDaemon, e)
    ensures BookedBy(s, e) == 0
  {
  }

  lemma OthersSnoc(others: seq<Event>)
    requires others != []
    ensures var k := |others| - 1;
            Others(TheDaemon, others) ==
            Others(TheDaemon, others[..k]) + if ByOthers(TheDaemon, others[k]) then [others[k]] else []
  {
  }

  lemma {:induction false} OthersBookNothing(cfg: Config, s: System, es: seq<Event>, others: seq<Event>)
    ensures Booked(cfg, s, es + Others(TheDaemon, others)) == Booked(cfg, s, es)
  {
    if others == [] {
      assert es + Others(TheDaemon, others) == es;
    } else {
      OthersSnoc(others);
      hide *;
      var k := |others| - 1;
      var init := Others(TheDaemon, others[..k]);
      OthersBookNothing(cfg, s, es, others[..k]);
      if ByOthers(TheDaemon, others[k]) {
        BookedSnoc(cfg, s, es + init, others[k]);
        OtherBooksNothing(Run(cfg, s, es + init), others[k]);
        assert es + Others(TheDaemon, others) == es + init + [others[k]];
      } else {
        assert Others(TheDaemon, others) == init;
      }
    }
  }

  lemma OneCallBooks(cfg: Config, s: System, es: seq<Event>, turn: Turn)
    ensures var d := Run(cfg, s, es).daemon;
            Booked(cfg, s, es + Others(TheDaemon, turn.others) + [DaemonDo(turn.io)]) ==
            Booked(cfg, s, es) + if d.Finished? then Successes(d) else 0
  {
    var others := Others(TheDaemon, turn.others);
    var s' := Run(cfg, s, es);
    hide Run, Booked, Successes, Others;
    RunAppend(cfg, s, es, others);
    OthersIgnoreDaemon(cfg, s', turn.others, s'.daemon);
    assert s'.(daemon := s'.daemon) == s';
    OthersBookNothing(cfg, s, es, turn.others);
    BookedSnoc(cfg, s, es + others, DaemonDo(turn.io));
  }

  /** It is what the transition system says main_loop adds over those calls. */
  lemma {:induction false} PlayBookedIsBooked(cfg: Config, env: nat -> Turn, i: nat, j: nat, s: System)
    requires i <= j
    ensures PlayBooked(cfg, env, i, j, s) == Booked(cfg, s, Trace(TheDaemon, env, i, j))
    decreases j - i
  {
    hide Run, Play, Successes, Others;
    if i < j {
      PlayBookedIsBooked(cfg, env, i, j - 1, s);
      PlayIsRun(cfg, TheDaemon, env, i, j - 1, s);
      OneCallBooks(cfg, s, Trace(TheDaemon, env, i, j - 1), env(j - 1));
      hide Booked;
    }
  }

  // ---------------------------------------------------------------- the program

  datatype Attempt = Attempt(success: bool, sha: Option<Digest>)

  datatype BatchResult =
    | Counts(success: nat, fail: nat)
    | Raised

  /** The daemon's process. `w` and `mover` are the world it shares with the others; `pc` is where it stands in
      the transition system. */
  class Process {
    const cfg: Config
    const env: nat -> Turn
    var calls: nat
    var w: World
    var mover: Mover
    var stateFile: Option<Record>
    ghost var pc: Daemon

    constructor (cfg: Config, env: nat -> Turn, w: World, mover: Mover, stateFile: Option<Record>)
      ensures this.cfg == cfg && this.env == env && calls == 0 && this.stateFile == stateFile
      ensures Sys() == System(w, mover, Idle(false))
    {
      this.cfg, this.env, this.calls, this.w, this.mover, this.stateFile := cfg, env, 0, w, mover, stateFile;
      this.pc := Idle(false);
    }

    ghost function Sys(): System
      reads this
    {
      System(w, mover, pc)
    }

    /** The state is what the calls since `from` make of `start`. */
    ghost predicate Played(from: nat, start: System)
      reads this
    {
      from <= calls && Sys() == Play(cfg, TheDaemon, env, from, calls, start)
    }

    /** And no batch has been added to the total on the way. */
    ghost predicate Underway(from: nat, start: System)
      reads this
    {
      Played(from, start) && PlayBooked(cfg, env, from, calls, start) == 0
    }

    /** The others act, and then the next call is made. */
    method Next() returns (o: Io)
      modifies this`w, this`mover, this`calls
      ensures calls == old(calls) + 1 && o == env(old(calls)).io
      ensures Sys() == Run(cfg, old(Sys()), Others(TheDaemon, env(old(calls)).others)) && pc == old(pc)
    {
      var turn := env(calls);
      var s := Run(cfg, System(w, mover, Idle(false)), Others(TheDaemon, turn.others));
      OthersIgnoreDaemon(cfg, System(w, mover, Idle(false)), turn.others, pc);
      w, mover, calls := s.w, s.mover, calls + 1;
      o := turn.io;
    }

    // The system calls of transfer_file. Each takes the position `pc` to the one the transition system gives.

    method Makedirs(job: Job, ghost b: Batch) returns (ok: bool)
      requires pc == Moving(b, Mkdir) && b.next < |b.listing| && job == JobOf(b)
      modifies this`w, this`mover, this`calls, this`pc
      ensures calls == old(calls) + 1 && Sys() == OneCall(cfg, TheDaemon, env(old(calls)), old(Sys()))
      ensures pc == Moving(b, if ok then Pipeline.StatDevices else Failed)
    {
      var o := Next();
      ok := o.Done?;
      if ok {
        w := MakeDir(w, Resolve(w, job.mount), job.date);
      }
      pc := Moving(b, if ok then Pipeline.StatDevices else Failed);
    }

    /** None when a stat fails; otherwise whether source and destination are on one device. */
    method StatDevices(job: Job, ghost b: Batch) returns (same: Option<bool>)
      requires pc == Moving(b, Pipeline.StatDevices) && b.next < |b.listing| && job == JobOf(b)
      modifies this`w, this`mover, this`calls, this`pc
      ensures calls == old(calls) + 1 && Sys() == OneCall(cfg, TheDaemon, env(old(calls)), old(Sys()))
      ensures pc == Moving(b, if same.None? then Failed else if same.value then Move else Copy)
    {
      var o := Next();
      if !o.Done? || job.name !in w.backlog || !HasDir(w, Resolve(w, job.mount), job.date) {
        same := None;
      } else {
        same := Some(SameDevice(cfg, Resolve(w, job.mount)));
      }
      pc := Moving(b, if same.None? then Failed else if same.value then Move else Copy);
    }

    method CopyFile(job: Job, ghost b: Batch) returns (ok: bool)
      requires pc == Moving(b, Copy) && b.next < |b.listing| && job == JobOf(b)
      modifies this`w, this`mover, this`calls, this`pc
      ensures calls == old(calls) + 1 && Sys() == OneCall(cfg, TheDaemon, env(old(calls)), old(Sys()))
      ensures pc == Moving(b, if ok then HashSource else Failed)
    {
      var o := Next();
      if job.name !in w.backlog || !HasDir(w, Resolve(w, job.mount), job.date) {
        ok := false;
      } else if o.Wrote? {
        w := Put(w, Resolve(w, job.mount), Path(job.date, job.name), o.data);
        ok := true;
      } else {
        w := PutPartial(w, Resolve(w, job.mount), Path(job.date, job.name), Partial(o));
        ok := false;
      }
      pc := Moving(b, if ok then HashSource else Failed);
    }

    method HashOfSource(job: Job, ghost b: Batch) returns (sha: Option<Digest>)
      requires pc == Moving(b, HashSource) && b.next < |b.listing| && job == JobOf(b)
      modifies this`w, this`mover, this`calls, this`pc
      ensures calls == old(calls) + 1 && Sys() == OneCall(cfg, TheDaemon, env(old(calls)), old(Sys()))
      ensures pc == Moving(b, if sha.Some? then HashCopy(sha.value) else Failed)
    {
      var o := Next();
      sha := if o.Done? && job.name in w.backlog then Some(cfg.sha(w.backlog[job.name].content)) else None;
      pc := Moving(b, if sha.Some? then HashCopy(sha.value) else Failed);
    }

    method HashOfCopy(job: Job, ghost b: Batch, ghost source: Digest) returns (sha: Option<Digest>)
      requires pc == Moving(b, HashCopy(source)) && b.next < |b.listing| && job == JobOf(b)
      modifies this`w, this`mover, this`calls, this`pc
      ensures calls == old(calls) + 1 && Sys() == OneCall(cfg, TheDaemon, env(old(calls)), old(Sys()))
      ensures pc == Moving(b, if sha.None? then Failed else if source == sha.value then UnlinkSource(source) else UnlinkCopy)
    {
      var o := Next();
      var store, path := StoreAt(w, Resolve(w, job.mount)), Path(job.date, job.name);
      sha := if o.Done? && path in store.files then Some(cfg.sha(store.files[path])) else None;
      pc := Moving(b, if sha.None? then Failed else if source == sha.value then UnlinkSource(source) else UnlinkCopy);
    }

    method UnlinkTheCopy(job: Job, ghost b: Batch)
      requires pc == Moving(b, UnlinkCopy) && b.next < |b.listing| && job == JobOf(b)
      modifies this`w, this`mover, this`calls, this`pc
      ensures calls == old(calls) + 1 && Sys() == OneCall(cfg, TheDaemon, env(old(calls)), old(Sys()))
      ensures pc == Moving(b, Failed)
      ensures env(old(calls)).io.Done? ==> Path(job.date, job.name) !in StoreAt(w, Resolve(w, job.mount)).files
    {
      var o := Next();
      if o.Done? {
        w := Remove(w, Resolve(w, job.mount), Path(job.date, job.name));
      }
      pc := Moving(b, Failed);
    }

    method UnlinkTheSource(job: Job, ghost b: Batch, ghost source: Digest) returns (ok: bool)
      requires pc == Moving(b, UnlinkSource(source)) && b.next < |b.listing| && job == JobOf(b)
      modifies this`w, this`mover, this`calls, this`pc
      ensures calls == old(calls) + 1 && Sys() == OneCall(cfg, TheDaemon, env(old(calls)), old(Sys()))
      ensures pc == Moving(b, if ok then Verified(source) else Failed)
    {
      var o := Next();
      ok := o.Done?;
      if ok {
        w := w.(backlog := w.backlog - {job.name});
      }
      pc := Moving(b, if ok then Verified(source) else Failed);
    }

    /** The call of shutil.move that renames or, if the rename raises, copies. */
    method RenameOrCopy(job: Job, ghost b: Batch) returns (renamed: bool, copied: bool)
      requires pc == Moving(b, Move) && b.next < |b.listing| && job == JobOf(b)
      modifies this`w, this`mover, this`calls, this`pc
      ensures calls == old(calls) + 1 && Sys() == OneCall(cfg, TheDaemon, env(old(calls)), old(Sys()))
      ensures !(renamed && copied)
      ensures pc == Moving(b, if renamed then HashMoved else if copied then MoveUnlink else Failed)
    {
      renamed, copied := false, false;
      var o := Next();
      var place, path := Resolve(w, job.mount), Path(job.date, job.name);
      if job.name in w.backlog && HasDir(w, place, job.date) {
        if o.Done? && SameDevice(cfg, place) {
          w := Put(w, place, path, w.backlog[job.name].content).(backlog := w.backlog - {job.name});
          renamed := true;
        } else if o.Wrote? {
          w := Put(w, place, path, o.data);
          copied := true;
        } else {
          w := PutPartial(w, place, path, Partial(o));
        }
      }
      pc := Moving(b, if renamed then HashMoved else if copied then MoveUnlink else Failed);
    }

    method UnlinkMoved(job: Job, ghost b: Batch) returns (ok: bool)
      requires pc == Moving(b, MoveUnlink) && b.next < |b.listing| && job == JobOf(b)
      modifies this`w, this`mover, this`calls, this`pc
      ensures calls == old(calls) + 1 && Sys() == OneCall(cfg, TheDaemon, env(old(calls)), old(Sys()))
      ensures pc == Moving(b, if ok then HashMoved else Failed)
    {
      var o := Next();
      ok := o.Done?;
      if ok {
        w := w.(backlog := w.backlog - {job.name});
      }
      pc := Moving(b, if ok then HashMoved else Failed);
    }

    /** shutil.move: a rename or, if that raises, a copy and an unlink. */
    method ShutilMove(job: Job, ghost b: Batch, ghost from: nat, ghost start: System) returns (ok: bool)
      requires pc == Moving(b, Move) && b.next < |b.listing| && job == JobOf(b) && Underway(from, start)
      modifies this`w, this`mover, this`calls, this`pc
      ensures Underway(from, start)
      ensures pc == Moving(b, if ok then HashMoved else Failed)
    {
      hide OneCall, JobOf;
      var renamed, copied := RenameOrCopy(job, b);
      assert Underway(from, start);
      if copied {
        ok := UnlinkMoved(job, b);
      } else {
        ok := renamed;
      }
    }

    method HashOfMoved(job: Job, ghost b: Batch) returns (sha: Option<Digest>)
      requires pc == Moving(b, HashMoved) && b.next < |b.listing| && job == JobOf(b)
      modifies this`w, this`mover, this`calls, this`pc
      ensures calls == old(calls) + 1 && Sys() == OneCall(cfg, TheDaemon, env(old(calls)), old(Sys()))
      ensures pc == Moving(b, if sha.Some? then Renamed(sha.value) else FailedAfterRename)
    {
      var o := Next();
      var store, path := StoreAt(w, Resolve(w, job.mount)), Path(job.date, job.name);
      sha := if o.Done? && path in store.files then Some(cfg.sha(store.files[path])) else None;
      pc := Moving(b, if sha.Some? then Renamed(sha.value) else FailedAfterRename);
    }

    /** transfer_file(src, dst_dir, verify=True); an exception anywhere is a failed attempt. */
    method TransferFile(job: Job, ghost b: Batch, ghost from: nat, ghost start: System) returns (r: Attempt)
      requires pc == Moving(b, Mkdir) && b.next < |b.listing| && job == JobOf(b) && Underway(from, start)
      modifies this`w, this`mover, this`calls, this`pc
      ensures Underway(from, start)
      ensures pc.Moving? && pc.b == b && Returned(pc.t)
      ensures r == if pc.t.Renamed? || pc.t.Verified? then Attempt(true, Some(pc.t.sha)) else Attempt(false, None)
    {
      hide OneCall, JobOf;
      var failed := Attempt(false, None);
      var ok := Makedirs(job, b);
      assert Underway(from, start);
      if !ok {
        return failed;
      }
      var same := StatDevices(job, b);
      assert Underway(from, start);
      if same.None? {
        return failed;
      }
      if same.value {
        ok := ShutilMove(job, b, from, start);
        if !ok {
          return failed;
        }
        var sha := HashOfMoved(job, b);
        return if sha.Some? then Attempt(true, sha) else failed;
      }
      ok := CopyFile(job, b);
      if !ok {
        return failed;
      }
      r := VerifyAndDelete(job, b, from, start);
    }

    /** The second half of the cross-device branch: compare digests, then remove the source or the bad copy. */
    method VerifyAndDelete(job: Job, ghost b: Batch, ghost from: nat, ghost start: System) returns (r: Attempt)
      requires pc == Moving(b, HashSource) && b.next < |b.listing| && job == JobOf(b) && Underway(from, start)
      modifies this`w, this`mover, this`calls, this`pc
      ensures Underway(from, start)
      ensures pc.Moving? && pc.b == b && Returned(pc.t)
      ensures r == if pc.t.Renamed? || pc.t.Verified? then Attempt(true, Some(pc.t.sha)) else Attempt(false, None)
    {
      hide OneCall, JobOf;
      var failed := Attempt(false, None);
      var src := HashOfSource(job, b);
      assert Underway(from, start);
      if src.None? {
        return failed;
      }
      var dst := HashOfCopy(job, b, src.value);
      assert Underway(from, start);
      if dst.None? {
        return failed;
      }
      if src != dst {
        UnlinkTheCopy(job, b);
        return failed;
      }
      var ok := UnlinkTheSource(job, b, src.value);
      return if ok then Attempt(true, src) else failed;
    }

    /** So the guarantees about runs apply to what TransferFile returns. */
    lemma AttemptIsJustified(from: nat, start: System)
      requires Played(from, start) && pc.Moving? && Returned(pc.t)
      requires Sane(cfg) && Inv(cfg, start) && AdmissibleRun(cfg, start, Trace(TheDaemon, env, from, calls))
      ensures pc.b.next < |pc.b.listing| && Justified(cfg, w, pc.b.listing[pc.b.next], pc.t)
    {
      hide Play, Trace, Inv, Justified;
      PlayIsRun(cfg, TheDaemon, env, from, calls, start);
      DeletionIsJustified(cfg, start, Trace(TheDaemon, env, from, calls), pc.b, pc.t);
    }

    // The other calls of export_batch.

    /** is_file_active; a file whose mtime cannot be read counts as active. */
    method IsFileActive(n: Name, ghost b: Batch) returns (active: bool)
      requires pc == AtFile(b) && b.next < |b.listing| && n == b.listing[b.next]
      modifies this`w, this`mover, this`calls, this`pc
      ensures calls == old(calls) + 1 && Sys() == OneCall(cfg, TheDaemon, env(old(calls)), old(Sys()))
      ensures pc == if active then Continue(Skip(b)) else Moving(b, Mkdir)
      ensures active <==>
                || !env(old(calls)).io.Done? || n !in w.backlog
                || 2 * (w.clock - w.backlog[n].mtime) < 3 * cfg.rotateSeconds * 1_000_000_000
    {
      var o := Next();
      active := !o.Done? || n !in w.backlog || 2 * (w.clock - w.backlog[n].mtime) < 3 * cfg.rotateSeconds * NANOS;
      pc := if active then Continue(Skip(b)) else Moving(b, Mkdir);
    }

    /** The log entry for an attempt; None if looking at the source raises. */
    method LogAttempt(n: Name, r: Attempt, ghost b: Batch, ghost t: Transfer) returns (entry: Option<Entry>)
      requires pc == Moving(b, t) && Returned(t) && b.next < |b.listing| && n == b.listing[b.next]
      requires r == if t.Renamed? || t.Verified? then Attempt(true, Some(t.sha)) else Attempt(false, None)
      modifies this`w, this`mover, this`calls, this`pc
      ensures calls == old(calls) + 1 && Sys() == OneCall(cfg, TheDaemon, env(old(calls)), old(Sys()))
      ensures entry.None? ==> pc == Idle(false)
      ensures entry.Some? ==> entry.value == EntryFor(w, n, t) && pc == Continue(Settle(w, b, t))
    {
      var o := Next();
      if !o.Done? {
        entry := None;
        pc := Idle(false);
      } else {
        var size := if n in w.backlog then |w.backlog[n].content| else 0;
        entry := Some(Entry(n, r.success, size, if r.sha.Some? then Some(Take(r.sha.value, 16)) else None));
        pc := Continue(Settle(w, b, t));
      }
    }

    method WriteManifestFile(mount: Mount, date: Date, transferred: seq<Line>, ghost b: Batch)
      requires pc == Manifest(b) && b.mount == mount && b.date == date && b.transferred == transferred
      modifies this`w, this`mover, this`calls, this`pc
      ensures calls == old(calls) + 1 && Sys() == OneCall(cfg, TheDaemon, env(old(calls)), old(Sys()))
      ensures pc == Pipeline.Log(b)
    {
      var o := Next();
      var place := Resolve(w, mount);
      if (o.Done? || o.Torn?) && HasDir(w, place, date) {
        var store := StoreAt(w, place);
        var lines := FirstLines(SortBy(ByName(), transferred), o);
        w := w.(stores := w.stores[place := store.(manifests := store.manifests[date := lines])]);
      }
      pc := Pipeline.Log(b);
    }

    method AppendTransferLog(mount: Mount, entries: seq<Entry>, ghost b: Batch)
      requires pc == Pipeline.Log(b) && b.mount == mount && b.entries == entries
      modifies this`w, this`mover, this`calls, this`pc
      ensures calls == old(calls) + 1 && Sys() == OneCall(cfg, TheDaemon, env(old(calls)), old(Sys()))
      ensures pc == Finished(b)
    {
      var o := Next();
      if o.Done? || o.Torn? {
        var place := Resolve(w, mount);
        var store := StoreAt(w, place);
        w := w.(stores := w.stores[place := store.(log := store.log + FirstLines(entries, o))]);
      }
      pc := Finished(b);
    }

    /** One file of the loop in export_batch. `b` are the books so far; they are carried by the caller's variables. */
    method ExportOne(mount: Mount, date: Date, n: Name, ghost b: Batch, ghost from: nat, ghost start: System)
      returns (raised: bool, line: Option<Line>, entry: Option<Entry>, ghost b': Batch, ghost last: Daemon)
      requires pc == AtFile(b) && b.next < |b.listing| && Underway(from, start)
      requires mount == b.mount && date == b.date && n == b.listing[b.next]
      modifies this`w, this`mover, this`calls, this`pc
      ensures Underway(from, start)
      ensures raised ==> pc == Idle(false) && from < calls && last.Moving?
      ensures raised ==> Play(cfg, TheDaemon, env, from, calls - 1, start).daemon == last
      ensures !raised ==> pc == Continue(b') && b'.next == b.next + 1
      ensures !raised ==> b'.mount == b.mount && b'.date == b.date && b'.listing == b.listing
      ensures !raised ==> b'.transferred == b.transferred + if line.Some? then [line.value] else []
      ensures !raised ==> b'.entries == b.entries + if entry.Some? then [entry.value] else []
      ensures !raised ==> |b'.failed| == |b.failed| + if entry.Some? && line.None? then 1 else 0
      ensures !raised ==> (line.Some? ==> entry.Some?)
    {
      hide OneCall;
      raised, line, entry, b', last := false, None, None, Skip(b), pc;
      var active := IsFileActive(n, b);
      assert Underway(from, start);
      if active {
        return;
      }
      var r := TransferFile(Job(mount, date, n), b, from, start);
      ghost var t := pc.t;
      last := pc;
      entry := LogAttempt(n, r, b, t);
      b' := Settle(w, b, t);
      raised := entry.None?;
      line := if r.success then Some(Line(n, r.sha.value)) else None;
    }

    /** export_batch(backlog_dir, drive_root, rotate_seconds). */
    method ExportBatch(mount: Mount, ghost from: nat, ghost start: System) returns (r: BatchResult, ghost done: nat)
      requires pc == Listing(mount) && Underway(from, start)
      modifies this`w, this`mover, this`calls, this`pc
      ensures Underway(from, start)
      ensures r.Counts? ==> pc.Finished? && r.success == |pc.b.transferred| == done && r.fail == |pc.b.failed|
      ensures r.Raised? ==> pc == Idle(false) && from < calls
      ensures r.Raised? ==> var before := Play(cfg, TheDaemon, env, from, calls - 1, start).daemon;
                            done == Successes(before) && (before.Listing? || before.Moving?)
    {
      hide OneCall, SortNames;
      var pcaps, date := ListBacklog(mount);
      assert Underway(from, start);
      if pcaps.None? {
        return Raised, 0;
      }
      ghost var b := Batch(mount, date, pcaps.value, 0, [], [], [], []);
      if pcaps.value == [] {
        return Counts(0, 0), 0;
      }
      var success, fail: nat, transferred, entries := 0, 0, [], [];
      for i := 0 to |pcaps.value|
        invariant Underway(from, start) && pc == Continue(b)
        invariant b.mount == mount && b.date == date && b.listing == pcaps.value && b.next == i
        invariant b.transferred == transferred && b.entries == entries
        invariant success == |transferred| && fail == |b.failed| && |entries| == success + fail
      {
        var raised, line, entry;
        ghost var last;
        raised, line, entry, b, last := ExportOne(mount, date, pcaps.value[i], b, from, start);
        if raised {
          return Raised, Successes(last);
        }
        if entry.Some? {
          entries := entries + [entry.value];
          if line.Some? {
            transferred := transferred + [line.value];
            success := success + 1;
          } else {
            fail := fail + 1;
          }
        }
      }
      if transferred != [] {
        WriteManifestFile(mount, date, transferred, b);
        assert Underway(from, start);
      }
      if entries != [] {
        AppendTransferLog(mount, entries, b);
      }
      return Counts(success, fail), success;
    }

    lemma PlayedIs(from: nat, start: System)
      requires Played(from, start)
      ensures from <= calls && System(w, mover, pc) == Play(cfg, TheDaemon, env, from, calls, start)
    {
    }

    lemma FinishedIs()
      ensures pc.Finished? ==> pc == Finished(pc.b)
    {
    }

    /** So the books of a batch that ExportBatch has finished are balanced, and they are about the whole backlog. */
    lemma BatchIsBalanced(from: nat, start: System) returns (k: nat)
      requires Played(from, start) && pc.Finished? && Accounted(start.w, start.daemon)
      requires Sane(cfg) && Inv(cfg, start) && AdmissibleRun(cfg, start, Trace(TheDaemon, env, from, calls))
      ensures |pc.b.transferred| + |pc.b.failed| + |pc.b.skipped| == |pc.b.listing|
      ensures forall n :: n in pc.b.listing && n in w.backlog ==> n in pc.b.skipped || n in pc.b.failed
      ensures forall n :: n in NamesOf(pc.b.transferred) ==> Evacuated(w, n)
      ensures !HasBatch(start.daemon) ==> Origin(cfg, start, Trace(TheDaemon, env, from, calls), pc.b, k)
    {
      hide *;
      PlayedIs(from, start);
      PlayIsRun(cfg, TheDaemon, env, from, calls, start);
      FinishedIs();
      k := BatchConserves(cfg, start, Trace(TheDaemon, env, from, calls), pc.b);
    }

    /** The sorted listing of the backlog and today's date; None if listing raises. */
    method ListBacklog(mount: Mount) returns (pcaps: Option<seq<Name>>, date: Date)
      requires pc == Listing(mount)
      modifies this`w, this`mover, this`calls, this`pc
      ensures calls == old(calls) + 1 && Sys() == OneCall(cfg, TheDaemon, env(old(calls)), old(Sys()))
      ensures pcaps.None? ==> pc == Idle(false)
      ensures pcaps.Some? ==> pc == Continue(Batch(mount, date, pcaps.value, 0, [], [], [], []))
      ensures pcaps.Some? ==> env(old(calls)).io.Listed?
      ensures var o := env(old(calls)).io;
              pcaps.Some? && Distinct(o.names) ==>
                StrictlySorted(pcaps.value) && forall n :: n in pcaps.value <==> n in o.names
    {
      var o := Next();
      if o.Listed? && Distinct(o.names) {
        SortNamesStrict(o.names);
      }
      if o.Listed? {
        pcaps, date := Some(SortNames(o.names)), o.date;
        pc := Continue(Batch(mount, date, pcaps.value, 0, [], [], [], []));
      } else {
        pcaps, date := None, "";
        pc := Idle(false);
      }
    }

    // main_loop.

    /** update_state; a failed write keeps the old file or spoils it. The position moves back to the top of the loop. */
    method UpdateStateFile(write: bool, r: Record, ghost last: bool) returns (saved: Save)
      requires pc == Polled(last) || (pc.Finished? && last)
      modifies this
      ensures calls == old(calls) + 1 && Sys() == OneCall(cfg, TheDaemon, env(old(calls)), old(Sys())) && pc == Idle(last)
      ensures saved == SaveOf(env(old(calls)).io)
      ensures stateFile == if write then UpdateState(old(stateFile), saved, r) else old(stateFile)
    {
      var o := Next();
      saved := SaveOf(o);
      if write {
        stateFile := if saved.Saved? then Some(r) else if saved.Spoiled? then None else stateFile;
      }
      pc := Idle(last);
    }

    /** detect_export_target at the top of the loop; None if it raises. */
    method Detect(ghost last: bool) returns (seen: Option<Option<Mount>>)
      requires pc == Idle(last)
      modifies this`w, this`mover, this`calls, this`pc
      ensures calls == old(calls) + 1 && Sys() == OneCall(cfg, TheDaemon, env(old(calls)), old(Sys()))
      ensures var o := env(old(calls)).io; seen == if o.Seen? then Some(o.at) else None
      ensures pc == if seen.None? then Idle(last) else if seen.value.Some? && !last then Listing(seen.value.value)
                    else Polled(seen.value.Some?)
    {
      var o := Next();
      seen := if o.Seen? then Some(o.at) else None;
      pc := if seen.None? then Idle(last) else if seen.value.Some? && !last then Listing(seen.value.value)
            else Polled(seen.value.Some?);
    }

    /** One pass of the loop: it changes the loop's variables and the state file as `MainLoop.After` says. */
    method OnePass(total: nat, last: bool) returns (total': nat, last': bool, ghost p: Pass)
      requires pc == Idle(last)
      modifies this
      ensures old(calls) < calls && Played(old(calls), old(Sys())) && pc == Idle(last')
      ensures p == PassOf(cfg, env, old(calls), calls, old(Sys()))
      ensures Loop(total', last', stateFile) == After(Loop(total, last, old(stateFile)), p)
      ensures total' == total + PlayBooked(cfg, env, old(calls), calls, old(Sys()))
    {
      hide OneCall;
      ghost var from, start := calls, Sys();
      total', last' := total, last;
      assert Underway(from, start);
      var seen := Detect(last);
      assert Underway(from, start);
      if seen.None? {
        p := Escaped(0);
        return;
      }
      var present := seen.value.Some?;
      if present && !last {
        var r; ghost var done;
        r, done := ExportBatch(seen.value.value, from, start);
        if r.Raised? {
          p := Escaped(done);
          return;
        }
        total' := total + r.success;
        var saved := UpdateStateFile(true, Record(true, r.success > 0, total'), true);
        p := Normal(true, r.success, saved);
      } else {
        var saved := UpdateStateFile(present || last, Record(present, false, total), present);
        p := Normal(present, 0, saved);
      }
      last' := present;
    }

    /** The pass is made by the calls from `i` up to `j`, starting at the top of the loop. */
    ghost predicate PassIs(p: Pass, from: nat, i: nat, j: nat, start: System) {
      from <= i < j && Play(cfg, TheDaemon, env, from, i, start).daemon.Idle?
      && p == PassOf(cfg, env, i, j, Play(cfg, TheDaemon, env, from, i, start))
    }

    /** Each pass is made by the calls from one cut to the next. */
    ghost predicate PassesAre(history: seq<Pass>, cuts: seq<nat>, start: System) {
      |cuts| == |history| + 1
      && forall k :: 0 <= k < |history| ==> PassIs(history[k], cuts[0], cuts[k], cuts[k + 1], start)
    }

    lemma PassesSnoc(history: seq<Pass>, cuts: seq<nat>, start: System, p: Pass, end: nat)
      requires PassesAre(history, cuts, start) && PassIs(p, cuts[0], cuts[|history|], end, start)
      ensures PassesAre(history + [p], cuts + [end], start)
    {
      hide PassIs;
    }

    /** main_loop for any number of passes: total_exported is what the transition system books, so it and the transfers
        of batches that were cut short add up to the transfers; and batches are the arrivals of a drive. */
    method MainLoop(passes: nat) returns (total: nat, last: bool, ghost history: seq<Pass>, ghost cuts: seq<nat>)
      requires pc == Idle(false)
      modifies this
      ensures Played(old(calls), old(Sys())) && pc == Idle(last)
      ensures |history| == passes && PassesAre(history, cuts, old(Sys()))
      ensures cuts[0] == old(calls) && cuts[passes] == calls
      ensures Loop(total, last, stateFile) == AfterAll(Start(old(stateFile)), history)
      ensures var start, trace := old(Sys()), Trace(TheDaemon, env, old(calls), calls);
              && total + Missed(cfg, start, trace) == Exported(cfg, start, trace)
              && (total == Exported(cfg, start, trace) <==> NoneCutShort(cfg, start, trace))
              && Finishes(cfg, start, trace) == Edges(Sightings(cfg, start, trace))
              && (last <==> LastSeen(Sightings(cfg, start, trace)))
    {
      ghost var start := Sys();
      total, last, history, cuts := 0, false, [], [calls];
      for i := 0 to passes
        invariant Played(old(calls), start) && pc == Idle(last)
        invariant |history| == i && |cuts| == i + 1 && PassesAre(history, cuts, start)
        invariant cuts[0] == old(calls) && cuts[i] == calls
        invariant Loop(total, last, stateFile) == AfterAll(Start(old(stateFile)), history)
        invariant total == PlayBooked(cfg, env, old(calls), calls, start)
      {
        hide Play, PassOf, After, PassesAre, Start, PlayBooked;
        ghost var p, here := Normal(false, 0, Kept), calls;
        total, last, p := OnePass(total, last);
        PassesSnoc(history, cuts, start, p, calls);
        PlayAppend(cfg, TheDaemon, env, old(calls), here, calls, start);
        PlayBookedAppend(cfg, env, old(calls), here, calls, start);
        assert (history + [p])[..i] == history;
        history, cuts := history + [p], cuts + [calls];
      }
      LoopTotals(old(calls), start, total, last);
    }

    lemma LoopTotals(from: nat, start: System, total: nat, last: bool)
      requires Played(from, start) && start.daemon == Idle(false) && pc == Idle(last)
      requires total == PlayBooked(cfg, env, from, calls, start)
      ensures var trace := Trace(TheDaemon, env, from, calls);
              && total + Missed(cfg, start, trace) == Exported(cfg, start, trace)
              && (total == Exported(cfg, start, trace) <==> NoneCutShort(cfg, start, trace))
              && Finishes(cfg, start, trace) == Edges(Sightings(cfg, start, trace))
              && (last <==> LastSeen(Sightings(cfg, start, trace)))
    {
      var trace := Trace(TheDaemon, env, from, calls);
      PlayIsRun(cfg, TheDaemon, env, from, calls, start);
      PlayBookedIsBooked(cfg, env, from, calls, start);
      hide Play, PlayBooked, Trace, Run, Exported, Booked, Missed, NoneCutShort, Finishes, Sightings, Edges, LastSeen;
      TransfersAreAccounted(cfg, start, trace);
      BookedIsRightIff(cfg, start, trace);
      BatchesAreEdges(cfg, start, trace);
    }
  }
}
