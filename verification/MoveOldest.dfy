/** move_oldest.py as it is written: count the ring, pick the oldest closed file, find a destination, move. Each
    method is proved to be a path of the transition system. */
module MoveOldest {
  import opened Names
  import opened Files
  import opened Sorting
  import opened Pipeline
  import opened Schedules
  import OldestFirst

  class Process {
    const cfg: Config
    const env: nat -> Turn
    var calls: nat
    var w: World
    var daemon: Daemon
    ghost var pc: Mover

    constructor (cfg: Config, env: nat -> Turn, w: World, daemon: Daemon)
      ensures this.cfg == cfg && this.env == env && calls == 0
      ensures Sys() == System(w, Asleep, daemon)
    {
      this.cfg, this.env, this.calls, this.w, this.daemon := cfg, env, 0, w, daemon;
      this.pc := Asleep;
    }

    ghost function Sys(): System
      reads this
    {
      System(w, pc, daemon)
    }

    /** The state is what the calls since `from` make of `start`. */
    ghost predicate Played(from: nat, start: System)
      reads this
    {
      from <= calls && Sys() == Play(cfg, TheMover, env, from, calls, start)
    }

    /** The others act, and then the next call is made. */
    method Next() returns (o: Io)
      modifies this`w, this`daemon, this`calls
      ensures calls == old(calls) + 1 && o == env(old(calls)).io
      ensures Sys() == Run(cfg, old(Sys()), Others(TheMover, env(old(calls)).others)) && pc == old(pc)
    {
      var turn := env(calls);
      var s := Run(cfg, System(w, Asleep, daemon), Others(TheMover, turn.others));
      OthersIgnoreMover(cfg, System(w, Asleep, daemon), turn.others, pc);
      w, daemon, calls := s.w, s.daemon, calls + 1;
      o := turn.io;
    }

    /** The first listing: is the threshold met? */
    method CountRing() returns (met: bool)
      requires pc == Asleep
      modifies this
      ensures calls == old(calls) + 1 && Sys() == OneCall(cfg, TheMover, env(old(calls)), old(Sys()))
      ensures pc == if met then Counted else Asleep
    {
      var o := Next();
      met := o.Done? && |w.ring| >= cfg.thresh;
      pc := if met then Counted else Asleep;
    }

    /** The second listing, sorted by mtime and scanned for the first closed file. */
    method PickTarget() returns (target: Option<Name>)
      requires pc == Counted
      modifies this
      ensures calls == old(calls) + 1 && Sys() == OneCall(cfg, TheMover, env(old(calls)), old(Sys()))
      ensures pc == if target.Some? then Picked(target.value) else Asleep
    {
      var o := Next();
      if o.Listed? {
        var scan := OldestFirst.PickOldestClosed(w.ring, o.names, OldestFirst.Steady(w.ring, w.clock, |o.names|));
        target := if scan.Raised? then None else scan.file;
        assert target == OldestFirst.Pick(w.ring, o.names, w.clock);
      } else {
        target := None;
      }
      pc := if target.Some? then Picked(target.value) else Asleep;
    }

    /** detect_export_drive and the date of the destination; not found if it raises. */
    method FindDestination(target: Name) returns (found: bool, to: Option<Mount>, date: Date)
      requires pc == Picked(target)
      modifies this
      ensures calls == old(calls) + 1 && Sys() == OneCall(cfg, TheMover, env(old(calls)), old(Sys()))
      ensures pc == if !found then Asleep else if to.Some? then Making(target, to.value, date)
                    else Routed(target, None, date)
    {
      var o := Next();
      if o.Seen? {
        found, to, date := true, o.at, o.date;
      } else {
        found, to, date := false, None, "";
      }
      pc := if !found then Asleep else if to.Some? then Making(target, to.value, date) else Routed(target, None, date);
    }

    /** mkdir of the dated directory; an exception ends the script. */
    method MakeDestination(target: Name, mount: Mount, date: Date) returns (ok: bool)
      requires pc == Making(target, mount, date)
      modifies this
      ensures calls == old(calls) + 1 && Sys() == OneCall(cfg, TheMover, env(old(calls)), old(Sys()))
      ensures pc == if ok then Routed(target, Some(mount), date) else Asleep
    {
      var o := Next();
      ok := o.Done?;
      if ok {
        w := MakeDir(w, Resolve(w, mount), date);
      }
      pc := if ok then Routed(target, Some(mount), date) else Asleep;
    }

    /** shutil.move to the backlog or the drive, up to the point where the source of a copy has to go. */
    method RenameOrCopy(target: Name, to: Option<Mount>, date: Date) returns (copied: bool)
      requires pc == Routed(target, to, date)
      modifies this
      ensures calls == old(calls) + 1 && Sys() == OneCall(cfg, TheMover, env(old(calls)), old(Sys()))
      ensures pc == if copied then Copied(target, to, date) else Asleep
    {
      copied := false;
      var o := Next();
      ghost var before := w;
      if target in w.ring {
        if to.None? {
          copied := MoveToBacklog(target, date, o);
        } else {
          copied := MoveToDrive(target, to.value, date, o);
        }
      }
      pc := if copied then Copied(target, to, date) else Asleep;
      assert (w, pc) == MoverMove(cfg, before, target, to, date, o);
    }

    method MoveToBacklog(target: Name, ghost date: Date, o: Io) returns (copied: bool)
      requires target in w.ring
      modifies this`w
      ensures (w, if copied then Copied(target, None, date) else Asleep) == MoverMove(cfg, old(w), target, None, date, o)
    {
      copied := false;
      if o.Done? && cfg.sharedDevice {
        w := w.(ring := w.ring - {target}, backlog := w.backlog[target := w.ring[target]]);
      } else if o.Wrote? {
        w := w.(backlog := w.backlog[target := File(o.data, w.ring[target].mtime)]);
        copied := true;
      } else if Partial(o).Some? {
        w := w.(backlog := w.backlog[target := File(Partial(o).value, w.clock)]);
      }
    }

    method MoveToDrive(target: Name, mount: Mount, date: Date, o: Io) returns (copied: bool)
      requires target in w.ring
      modifies this`w
      ensures (w, if copied then Copied(target, Some(mount), date) else Asleep) ==
              MoverMove(cfg, old(w), target, Some(mount), date, o)
    {
      copied := false;
      var place, path := Resolve(w, mount), Path(date, target);
      if !HasDir(w, place, date) {
        return;
      }
      if o.Done? && SameDevice(cfg, place) {
        w := Put(w, place, path, w.ring[target].content).(ring := w.ring - {target});
      } else if o.Wrote? {
        w := Put(w, place, path, o.data);
        copied := true;
      } else {
        w := PutPartial(w, place, path, Partial(o));
      }
    }

    method UnlinkTarget(target: Name)
      requires pc.Copied? && pc.target == target
      modifies this
      ensures calls == old(calls) + 1 && Sys() == OneCall(cfg, TheMover, env(old(calls)), old(Sys()))
      ensures pc == Asleep
    {
      var o := Next();
      if o.Done? {
        w := w.(ring := w.ring - {target});
      }
      pc := Asleep;
    }

    /** One run of the script: at most one file is moved, and there is no second try in the same run. */
    method Tick()
      requires pc == Asleep
      modifies this
      ensures old(calls) < calls <= old(calls) + 6 && Played(old(calls), old(Sys())) && pc == Asleep
    {
      hide OneCall;
      ghost var from, start := calls, Sys();
      assert Played(from, start);
      var met := CountRing();
      assert Played(from, start);
      if !met {
        return;
      }
      var target := PickTarget();
      assert Played(from, start);
      if target.None? {
        return;
      }
      var found, to, date := FindDestination(target.value);
      assert Played(from, start);
      if !found {
        return;
      }
      if to.Some? {
        var made := MakeDestination(target.value, to.value, date);
        assert Played(from, start);
        if !made {
          return;
        }
      }
      var copied := RenameOrCopy(target.value, to, date);
      assert Played(from, start);
      if copied {
        UnlinkTarget(target.value);
      }
    }
  }
}
