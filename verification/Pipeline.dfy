/** The evacuation pipeline as one transition system: tcpdump, the mover, the hot-swap daemon and the
    operator act one system call at a time, in any order, and any call of the two programs may fail. */
module Pipeline {
  import opened Hashing
  import opened Names
  import opened Files
  import opened Sorting
  import OldestFirst

  /** Configuration and fixed facts about the host. `sharedDevice`: the ring and the backlog are on one
      device. `bareLocal`: so are the directories underneath the mount points. `moverRenames`, `daemonRenames`:
      a rename within one device by this program does not raise, so that its shutil.move does not fall back to a
      copy there. `moverExact`, `moveExact`: a copy made by the mover, or by the daemon's shutil.move, which nobody
      verifies, holds what was read. `ties`: the clock is so coarse that a new capture file can carry the time of
      the last write to the old one. */
  datatype Config = Config(
    thresh: nat, rotateSeconds: nat, sharedDevice: bool, bareLocal: bool, moverRenames: bool, daemonRenames: bool,
    moverExact: bool, moveExact: bool, ties: bool, sha: Content -> Digest)

  /** `captured` lists every capture file ever opened, in order; `original` is what each closed one
      held when tcpdump let go of it; `rotated` is when the newest one was opened. */
  datatype World = World(
    clock: int,
    ring: Directory,
    backlog: Directory,
    stores: map<Place, Store>,
    mounts: map<Mount, nat>,
    active: Option<Name>,
    captured: seq<Name>,
    original: map<Name, Content>,
    rotated: int)

  function Resolve(w: World, m: Mount): Place {
    if m in w.mounts then Volume(w.mounts[m]) else Bare(m)
  }

  function StoreAt(w: World, p: Place): Store {
    if p in w.stores then w.stores[p] else Store(map[], map[], [], {})
  }

  predicate HasDir(w: World, p: Place, date: Date) {
    date in StoreAt(w, p).dirs
  }

  /** os.makedirs with exist_ok. */
  function MakeDir(w: World, p: Place, date: Date): World {
    var store := StoreAt(w, p);
    w.(stores := w.stores[p := store.(dirs := store.dirs + {date})])
  }

  function Put(w: World, p: Place, path: Path, data: Content): World {
    var store := StoreAt(w, p);
    w.(stores := w.stores[p := store.(files := store.files[path := data])])
  }

  function Remove(w: World, p: Place, path: Path): World {
    var store := StoreAt(w, p);
    w.(stores := w.stores[p := store.(files := store.files - {path})])
  }

  /** What a failed copy may leave behind. */
  function PutPartial(w: World, p: Place, path: Path, partial: Option<Content>): World {
    if partial.Some? then Put(w, p, path, partial.value) else w
  }

  /** Where st_dev is that of the local disk: only the bare directory can be. */
  predicate SameDevice(cfg: Config, p: Place) {
    p.Bare? && cfg.bareLocal
  }

  // ---------------------------------------------------------------- capture

  /** tcpdump closes the file it writes, if any. */
  function CloseActive(w: World): World {
    if w.active.Some? && w.active.value in w.ring
    then w.(active := None, original := w.original[w.active.value := w.ring[w.active.value].content])
    else w.(active := None)
  }

  function Rotate(w: World, n: Name): World {
    var c := CloseActive(w);
    c.(ring := c.ring[n := File([], c.clock)], active := Some(n), captured := c.captured + [n], rotated := c.clock)
  }

  function Write(w: World, data: Content): World {
    if w.active.Some? && w.active.value in w.ring
    then w.(ring := w.ring[w.active.value := File(w.ring[w.active.value].content + data, w.clock)])
    else w
  }

  // ---------------------------------------------------------------- outcomes of system calls

  /** How a system call turns out. `Raise` may leave partial data behind; `Wrote` is a copy that reports
      success, whatever it put on the medium; `Torn` is a text file cut short after some lines. An outcome
      that makes no sense for the pending call counts as an exception. */
  datatype Io =
    | Done
    | Raise(partial: Option<Content>)
    | Wrote(data: Content)
    | Torn(lines: nat)
    | Listed(names: seq<Name>, date: Date)
    | Seen(at: Option<Mount>, date: Date)

  function Partial(o: Io): Option<Content> {
    if o.Raise? then o.partial else None
  }

  // ---------------------------------------------------------------- mover

  datatype Mover =
    | Asleep
    | Counted
    | Picked(target: Name)
    | Making(target: Name, mount: Mount, date: Date)
    | Routed(target: Name, to: Option<Mount>, date: Date)
    | Copied(target: Name, to: Option<Mount>, date: Date)

  /** One system call of move_oldest.py. */
  function MoverStep(cfg: Config, w: World, m: Mover, o: Io): (World, Mover) {
    match m
    case Asleep => (w, if o.Done? && |w.ring| >= cfg.thresh then Counted else Asleep)
    case Counted =>
      if o.Listed? then
        var pick := OldestFirst.Pick(w.ring, o.names, w.clock);
        (w, if pick.Some? then Picked(pick.value) else Asleep)
      else (w, Asleep)
    case Picked(n) =>
      (w, if !o.Seen? then Asleep else if o.at.Some? then Making(n, o.at.value, o.date) else Routed(n, None, o.date))
    case Making(n, mount, date) =>
      if o.Done? then (MakeDir(w, Resolve(w, mount), date), Routed(n, Some(mount), date)) else (w, Asleep)
    case Routed(n, to, date) => MoverMove(cfg, w, n, to, date, o)
    case Copied(n, _, _) => (if o.Done? then w.(ring := w.ring - {n}) else w, Asleep)
  }

  /** shutil.move: `Done` is a rename, which takes one device; if the rename raises, for whatever reason, the file is
      copied, and then the source is unlinked. Neither works without the destination directory. */
  function MoverMove(cfg: Config, w: World, n: Name, to: Option<Mount>, date: Date, o: Io): (World, Mover) {
    if n !in w.ring then (w, Asleep)
    else if to.None? then
      if o.Done? && cfg.sharedDevice then (w.(ring := w.ring - {n}, backlog := w.backlog[n := w.ring[n]]), Asleep)
      else if o.Wrote? then (w.(backlog := w.backlog[n := File(o.data, w.ring[n].mtime)]), Copied(n, to, date))
      else if Partial(o).Some? then (w.(backlog := w.backlog[n := File(Partial(o).value, w.clock)]), Asleep)
      else (w, Asleep)
    else
      var place := Resolve(w, to.value);
      var path := Path(date, n);
      if !HasDir(w, place, date) then (w, Asleep)
      else if o.Done? && SameDevice(cfg, place) then
        (Put(w, place, path, w.ring[n].content).(ring := w.ring - {n}), Asleep)
      else if o.Wrote? then (Put(w, place, path, o.data), Copied(n, to, date))
      else (PutPartial(w, place, path, Partial(o)), Asleep)
  }

  /** Source and destination of a routed mover are on one device. */
  predicate Renames(cfg: Config, w: World, to: Option<Mount>) {
    if to.None? then cfg.sharedDevice else SameDevice(cfg, Resolve(w, to.value))
  }

  // ---------------------------------------------------------------- hot-swap daemon: transfer_file

  /** The file being transferred, and where to. */
  datatype Job = Job(mount: Mount, date: Date, name: Name)

  /** The next system call of transfer_file, or how it returned. `MoveUnlink` is the last call of a
      shutil.move that had to copy. */
  datatype Transfer =
    | Mkdir
    | StatDevices
    | Move
    | MoveUnlink
    | HashMoved
    | Copy
    | HashSource
    | HashCopy(source: Digest)
    | UnlinkCopy
    | UnlinkSource(source: Digest)
    | Renamed(sha: Digest)
    | Verified(sha: Digest)
    | Failed
    | FailedAfterRename

  predicate Returned(t: Transfer) {
    t.Renamed? || t.Verified? || t.Failed? || t.FailedAfterRename?
  }

  function TransferStep(cfg: Config, w: World, job: Job, t: Transfer, o: Io): (World, Transfer) {
    var place := Resolve(w, job.mount);
    var path := Path(job.date, job.name);
    var present := job.name in w.backlog;
    match t
    case Mkdir => if o.Done? then (MakeDir(w, place, job.date), StatDevices) else (w, Failed)
    case StatDevices =>
      if !o.Done? || !present || !HasDir(w, place, job.date) then (w, Failed)
      else (w, if SameDevice(cfg, place) then Move else Copy)
    case Move =>
      if !present || !HasDir(w, place, job.date) then (w, Failed)
      else if o.Done? && SameDevice(cfg, place) then
        (Put(w, place, path, w.backlog[job.name].content).(backlog := w.backlog - {job.name}), HashMoved)
      else if o.Wrote? then (Put(w, place, path, o.data), MoveUnlink)
      else (PutPartial(w, place, path, Partial(o)), Failed)
    case MoveUnlink =>
      if o.Done? then (w.(backlog := w.backlog - {job.name}), HashMoved) else (w, Failed)
    case HashMoved =>
      if o.Done? && path in StoreAt(w, place).files
      then (w, Renamed(cfg.sha(StoreAt(w, place).files[path]))) else (w, FailedAfterRename)
    case Copy =>
      if !present || !HasDir(w, place, job.date) then (w, Failed)
      else if o.Wrote? then (Put(w, place, path, o.data), HashSource)
      else (PutPartial(w, place, path, Partial(o)), Failed)
    case HashSource =>
      (w, if o.Done? && present then HashCopy(cfg.sha(w.backlog[job.name].content)) else Failed)
    case HashCopy(source) =>
      if o.Done? && path in StoreAt(w, place).files then
        (w, if source == cfg.sha(StoreAt(w, place).files[path]) then UnlinkSource(source) else UnlinkCopy)
      else (w, Failed)
    case UnlinkCopy => (if o.Done? then Remove(w, place, path) else w, Failed)
    case UnlinkSource(source) =>
      if o.Done? then (w.(backlog := w.backlog - {job.name}), Verified(source)) else (w, Failed)
    case _ => (w, t)
  }

  // ---------------------------------------------------------------- hot-swap daemon: export_batch

  /** The local variables of export_batch. `listing[..next]` has been dealt with. */
  datatype Batch = Batch(
    mount: Mount, date: Date, listing: seq<Name>, next: nat,
    skipped: seq<Name>, transferred: seq<Line>, failed: seq<Name>, entries: seq<Entry>)

  /** Where main_loop stands. `Idle` is before a poll, with `last_drive_state`; the states from `Listing` to `Log`
      are inside export_batch, which runs only when a drive is seen that was not seen before; `Polled` and
      `Finished` are before the state file is written and the loop sleeps. */
  datatype Daemon =
    | Idle(last: bool)
    | Polled(seen: bool)
    | Listing(mount: Mount)
    | AtFile(b: Batch)
    | Moving(b: Batch, t: Transfer)
    | Manifest(b: Batch)
    | Log(b: Batch)
    | Finished(b: Batch)

  /** Where the loop over the listing goes once `b.next` has advanced. */
  function Continue(b: Batch): Daemon {
    if b.next < |b.listing| then AtFile(b)
    else if b.transferred != [] then Manifest(b)
    else if b.entries != [] then Log(b)
    else Finished(b)
  }

  /** is_file_active on a file of the backlog. */
  predicate IsActive(cfg: Config, w: World, n: Name) {
    n !in w.backlog || 2 * (w.clock - w.backlog[n].mtime) < 3 * cfg.rotateSeconds * NANOS
  }

  function Skip(b: Batch): Batch
    requires b.next < |b.listing|
  {
    b.(next := b.next + 1, skipped := b.skipped + [b.listing[b.next]])
  }

  function Take(s: string, n: nat): string {
    if |s| <= n then s else s[..n]
  }

  /** The log entry for a finished transfer; the size is read after the move. */
  function EntryFor(w: World, n: Name, t: Transfer): Entry {
    var size := if n in w.backlog then |w.backlog[n].content| else 0;
    if t.Renamed? || t.Verified? then Entry(n, true, size, Some(Take(t.sha, 16)))
    else Entry(n, false, size, None)
  }

  function Settle(w: World, b: Batch, t: Transfer): Batch
    requires b.next < |b.listing|
  {
    var n := b.listing[b.next];
    var b' := b.(next := b.next + 1, entries := b.entries + [EntryFor(w, n, t)]);
    if t.Renamed? || t.Verified?
    then b'.(transferred := b.transferred + [Line(n, t.sha)])
    else b'.(failed := b.failed + [n])
  }

  function ByName(): (Line, Line) -> bool {
    (a: Line, b: Line) => !Lt(b.name, a.name)
  }

  /** How much of a text file a write leaves behind. */
  function FirstLines<T>(xs: seq<T>, o: Io): (written: seq<T>)
    ensures written <= xs
    ensures if o.Torn? && o.lines <= |xs| then |written| == o.lines else written == xs
  {
    if o.Torn? && o.lines <= |xs| then xs[..o.lines] else xs
  }

  /** write_manifest replaces the file; a failed write leaves some lines or the old file, and without the directory
      there is no file. */
  function WriteManifest(w: World, b: Batch, o: Io): World {
    var place := Resolve(w, b.mount);
    var store := StoreAt(w, place);
    if (o.Done? || o.Torn?) && HasDir(w, place, b.date) then
      w.(stores := w.stores[place := store.(
        manifests := store.manifests[b.date := FirstLines(SortBy(ByName(), b.transferred), o)])])
    else w
  }

  function AppendLog(w: World, b: Batch, o: Io): World {
    var place := Resolve(w, b.mount);
    var store := StoreAt(w, place);
    if o.Done? || o.Torn?
    then w.(stores := w.stores[place := store.(log := store.log + FirstLines(b.entries, o))])
    else w
  }

  function JobOf(b: Batch): Job {
    Job(b.mount, b.date, if b.next < |b.listing| then b.listing[b.next] else "")
  }

  /** One system call of seer_hotswap.py inside main_loop. An exception that escapes export_batch ends the
      batch and leaves last_drive_state as it was. */
  function DaemonStep(cfg: Config, w: World, d: Daemon, o: Io): (World, Daemon) {
    match d
    case Idle(last) =>
      (w, if !o.Seen? then d else if o.at.Some? && !last then Listing(o.at.value) else Polled(o.at.Some?))
    case Polled(seen) => (w, Idle(seen))
    case Listing(m) =>
      (w, if !o.Listed? then Idle(false) else Continue(Batch(m, o.date, SortNames(o.names), 0, [], [], [], [])))
    case AtFile(b) =>
      if b.next >= |b.listing| then (w, Idle(false))
      else if !o.Done? || IsActive(cfg, w, b.listing[b.next]) then (w, Continue(Skip(b)))
      else (w, Moving(b, Mkdir))
    case Moving(b, t) =>
      if b.next >= |b.listing| then (w, Idle(false))
      else if Returned(t) then (w, if o.Done? then Continue(Settle(w, b, t)) else Idle(false))
      else
        var (w', t') := TransferStep(cfg, w, JobOf(b), t, o);
        (w', Moving(b, t'))
    case Manifest(b) => (WriteManifest(w, b, o), Log(b))
    case Log(b) => (AppendLog(w, b, o), Finished(b))
    case Finished(b) => (w, Idle(true))
  }

  // ---------------------------------------------------------------- the whole system

  datatype System = System(w: World, mover: Mover, daemon: Daemon)

  datatype Event =
    | Packets(data: Content)
    | NewCapture(name: Name)
    | StopCapture
    | Wait(nanos: nat)
    | Attach(at: Mount, id: nat)
    | Detach(at: Mount)
    | MoverDo(m: Io)
    | MoverKilled
    | DaemonDo(d: Io)
    | DaemonKilled

  function Step(cfg: Config, s: System, e: Event): System {
    match e
    case Packets(data) => s.(w := Write(s.w, data))
    case NewCapture(n) => s.(w := Rotate(s.w, n))
    case StopCapture => s.(w := CloseActive(s.w))
    case Wait(nanos) => s.(w := s.w.(clock := s.w.clock + nanos))
    case Attach(m, id) => s.(w := s.w.(mounts := s.w.mounts[m := id]))
    case Detach(m) => s.(w := s.w.(mounts := s.w.mounts - {m}))
    case MoverDo(o) => var (w, m) := MoverStep(cfg, s.w, s.mover, o); s.(w := w, mover := m)
    case MoverKilled => s.(mover := Asleep)
    case DaemonDo(o) => var (w, d) := DaemonStep(cfg, s.w, s.daemon, o); s.(w := w, daemon := d)
    case DaemonKilled => s.(daemon := Idle(false))
  }

  /** The state after a run, the newest event last. */
  function Run(cfg: Config, s: System, es: seq<Event>): System {
    if es == [] then s else Step(cfg, Run(cfg, s, es[..|es| - 1]), es[|es| - 1])
  }

  lemma RunNil(cfg: Config, s: System)
    ensures Run(cfg, s, []) == s
  {
  }

  lemma {:induction false} RunAppend(cfg: Config, s: System, a: seq<Event>, b: seq<Event>)
    ensures Run(cfg, s, a + b) == Run(cfg, Run(cfg, s, a), b)
  {
    if b == [] {
      assert a + b == a;
    } else {
      var k := |b| - 1;
      assert (a + b)[..|a + b| - 1] == a + b[..k];
      RunAppend(cfg, s, a, b[..k]);
    }
  }

  lemma RunSnoc(cfg: Config, s: System, es: seq<Event>, e: Event)
    ensures Run(cfg, s, es + [e]) == Step(cfg, Run(cfg, s, es), e)
  {
    assert (es + [e])[..|es|] == es;
  }

  // ---------------------------------------------------------------- what the environment owes

  /** File names carry a timestamp, so a new one is unused; rotations are at least one clock value apart; and
      unless the clock is coarse, so are the last write to the old file and the creation of the new one. */
  ghost predicate FreshCapture(cfg: Config, w: World, n: Name) {
    && n !in w.captured && w.rotated < w.clock
    && (!cfg.ties ==> forall x :: x in w.ring ==> w.ring[x].mtime < w.clock)
  }

  /** What the mover's copy puts on the medium, if it is exact. */
  ghost predicate MoverCopiesExactly(cfg: Config, w: World, m: Mover, o: Io) {
    cfg.moverExact && m.Routed? && m.target in w.ring && o.Wrote? ==> o.data == w.ring[m.target].content
  }

  /** The two files compared by transfer_file do not collide under the digest. */
  ghost predicate NoCollision(cfg: Config, w: World, job: Job, t: Transfer) {
    t.HashCopy? ==>
      var files := StoreAt(w, Resolve(w, job.mount)).files;
      var path := Path(job.date, job.name);
      job.name in w.backlog && path in files && cfg.sha(w.backlog[job.name].content) == cfg.sha(files[path])
      ==> w.backlog[job.name].content == files[path]
  }

  /** What the daemon's shutil.move puts on the medium when it has to copy, if that copy is exact. */
  ghost predicate MoveCopiesExactly(cfg: Config, w: World, job: Job, t: Transfer, o: Io) {
    cfg.moveExact && t.Move? && job.name in w.backlog && o.Wrote? ==> o.data == w.backlog[job.name].content
  }

  /** The outcome of a shutil.move that did not come to a copy. */
  predicate NoCopy(o: Io) {
    !o.Wrote? && Partial(o).None?
  }

  ghost predicate MoverOwed(cfg: Config, w: World, m: Mover, o: Io) {
    && MoverCopiesExactly(cfg, w, m, o)
    && (cfg.moverRenames && m.Routed? && Renames(cfg, w, m.to) ==> NoCopy(o))
  }

  ghost predicate TransferOwed(cfg: Config, w: World, job: Job, t: Transfer, o: Io) {
    && NoCollision(cfg, w, job, t) && MoveCopiesExactly(cfg, w, job, t, o)
    && (cfg.daemonRenames && t.Move? && SameDevice(cfg, Resolve(w, job.mount)) ==> NoCopy(o))
  }

  ghost predicate Admissible(cfg: Config, s: System, e: Event) {
    match e
    case NewCapture(n) => FreshCapture(cfg, s.w, n)
    case MoverDo(o) =>
      && (s.mover.Counted? && o.Listed? ==> IsListing(o.names, s.w.ring))
      && (s.mover.Picked? && o.Seen? && o.at.Some? ==> o.at.value in s.w.mounts)
      && MoverOwed(cfg, s.w, s.mover, o)
    case DaemonDo(o) =>
      && (s.daemon.Listing? && o.Listed? ==> IsListing(o.names, s.w.backlog))
      && (s.daemon.Idle? && o.Seen? && o.at.Some? ==> o.at.value in s.w.mounts)
      && (s.daemon.Moving? ==> TransferOwed(cfg, s.w, JobOf(s.daemon.b), s.daemon.t, o))
    case _ => true
  }

  ghost predicate AdmissibleRun(cfg: Config, s: System, es: seq<Event>) {
    forall k :: 0 <= k < |es| ==> Admissible(cfg, Run(cfg, s, es[..k]), es[k])
  }

  lemma AdmissiblePrefix(cfg: Config, s: System, es: seq<Event>, k: nat)
    requires AdmissibleRun(cfg, s, es) && k <= |es|
    ensures AdmissibleRun(cfg, s, es[..k])
  {
    forall i | 0 <= i < k ensures Admissible(cfg, Run(cfg, s, es[..k][..i]), es[..k][i]) {
      assert es[..k][..i] == es[..i];
    }
  }

  /** A non-empty admissible run: an admissible shorter one, and one admissible event on top. */
  lemma SplitRun(cfg: Config, s: System, es: seq<Event>)
    requires AdmissibleRun(cfg, s, es) && es != []
    ensures var k := |es| - 1;
            && AdmissibleRun(cfg, s, es[..k])
            && Admissible(cfg, Run(cfg, s, es[..k]), es[k])
            && Run(cfg, s, es) == Step(cfg, Run(cfg, s, es[..k]), es[k])
  {
    AdmissiblePrefix(cfg, s, es, |es| - 1);
  }

  lemma AdmissibleSnoc(cfg: Config, s: System, es: seq<Event>, e: Event)
    requires AdmissibleRun(cfg, s, es) && Admissible(cfg, Run(cfg, s, es), e)
    ensures AdmissibleRun(cfg, s, es + [e])
  {
    forall k | 0 <= k < |es + [e]| ensures Admissible(cfg, Run(cfg, s, (es + [e])[..k]), (es + [e])[k]) {
      if k < |es| {
        assert (es + [e])[..k] == es[..k];
      } else {
        assert (es + [e])[..k] == es;
      }
    }
  }
}
