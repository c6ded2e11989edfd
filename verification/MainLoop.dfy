/** The books that main_loop keeps: total_exported, last_drive_state and the state file. */
module MainLoop {
  import opened Files

  /** The fields of hotswap_state.json; `exportedNow` says whether last_export_ts is set. */
  datatype Record = Record(drivePresent: bool, exportedNow: bool, totalExported: nat)

  datatype Loop = Loop(total: nat, last: bool, file: Option<Record>)

  /** One pass of the loop. It ran to the end, having seen a drive or not, having exported `exported` files if
      it ran a batch, and with its state-file write turning out as `saved`; or an exception escaped after `exported`
      successful transfers. */
  datatype Pass =
    | Normal(present: bool, exported: nat, saved: Save)
    | Escaped(exported: nat)

  /** A write of the state file: complete, cut short after the old content was gone, or not even begun. */
  datatype Save = Saved | Spoiled | Kept

  function UpdateState(file: Option<Record>, saved: Save, r: Record): Option<Record> {
    match saved
    case Saved => Some(r)
    case Spoiled => None
    case Kept => file
  }

  function After(l: Loop, p: Pass): Loop {
    if p.Escaped? then l
    else if p.present && !l.last then
      var total := l.total + p.exported;
      Loop(total, true, UpdateState(l.file, p.saved, Record(true, p.exported > 0, total)))
    else if !p.present && l.last then
      Loop(l.total, false, UpdateState(l.file, p.saved, Record(false, false, l.total)))
    else if p.present && l.last then
      Loop(l.total, true, UpdateState(l.file, p.saved, Record(true, false, l.total)))
    else Loop(l.total, p.present, l.file)
  }

  function AfterAll(l: Loop, ps: seq<Pass>): Loop {
    if ps == [] then l else After(AfterAll(l, ps[..|ps| - 1]), ps[|ps| - 1])
  }

  /** main_loop starts with nothing exported and no drive seen; the file is whatever an earlier process left. */
  function Start(file: Option<Record>): Loop {
    Loop(0, false, file)
  }

  // ---------------------------------------------------------------- total_exported

  lemma {:induction false} TotalIsMonotone(l: Loop, ps: seq<Pass>, k: nat)
    requires k <= |ps|
    ensures AfterAll(l, ps[..k]).total <= AfterAll(l, ps).total
    decreases |ps|
  {
    if k < |ps| {
      assert ps[..|ps| - 1][..k] == ps[..k];
      TotalIsMonotone(l, ps[..|ps| - 1], k);
    } else {
      assert ps[..k] == ps;
    }
  }

  /** Whether the last pass that ran to the end saw a drive; `before` if there is none. */
  function SeenLast(before: bool, ps: seq<Pass>): bool {
    if ps == [] then before
    else
      var p := ps[|ps| - 1];
      if p.Normal? then p.present else SeenLast(before, ps[..|ps| - 1])
  }

  /** What the passes exported that ran to the end and saw a drive where the last such pass had not. */
  function Exports(before: bool, ps: seq<Pass>): nat {
    if ps == [] then 0
    else
      var init, p := ps[..|ps| - 1], ps[|ps| - 1];
      Exports(before, init) + if p.Normal? && p.present && !SeenLast(before, init) then p.exported else 0
  }

  /** total_exported is what was exported on arrivals of a drive, and last_drive_state what was seen last. */
  lemma {:induction false} TotalIsExports(l: Loop, ps: seq<Pass>)
    ensures AfterAll(l, ps).total == l.total + Exports(l.last, ps)
    ensures AfterAll(l, ps).last == SeenLast(l.last, ps)
  {
    if ps != [] {
      TotalIsExports(l, ps[..|ps| - 1]);
    }
  }

  // ---------------------------------------------------------------- the state file

  /** The pass writes the state file: it ran to the end, and there is a drive or was one at the last such pass. */
  predicate Writes(before: bool, ps: seq<Pass>)
    requires ps != []
  {
    var p := ps[|ps| - 1];
    p.Normal? && (p.present || SeenLast(before, ps[..|ps| - 1]))
  }

  /** What became of the last write that changed the file: None if it was cut short. */
  function LastSaved(before: bool, file: Option<(bool, nat)>, ps: seq<Pass>): Option<(bool, nat)> {
    if ps == [] then file
    else
      var p := ps[|ps| - 1];
      if !Writes(before, ps) || p.saved.Kept? then LastSaved(before, file, ps[..|ps| - 1])
      else if p.saved.Spoiled? then None
      else Some((p.present, Exports(before, ps)))
  }

  function Fields(file: Option<Record>): Option<(bool, nat)> {
    if file.Some? then Some((file.value.drivePresent, file.value.totalExported)) else None
  }

  /** Whatever becomes of its writes, the state file holds what the last one that got through to it saw: whether there was
      a drive, and what had been exported by then. */
  lemma {:induction false} StateFileIsLastSaved(file: Option<Record>, ps: seq<Pass>)
    ensures Fields(AfterAll(Start(file), ps).file) == LastSaved(false, Fields(file), ps)
  {
    if ps != [] {
      StateFileIsLastSaved(file, ps[..|ps| - 1]);
      TotalIsExports(Start(file), ps);
      TotalIsExports(Start(file), ps[..|ps| - 1]);
    }
  }

  ghost predicate Agrees(l: Loop) {
    l.file.Some? && l.file.value.drivePresent == l.last && l.file.value.totalExported == l.total
  }

  ghost predicate AllWritten(ps: seq<Pass>) {
    forall i :: 0 <= i < |ps| && ps[i].Normal? ==> ps[i].saved.Saved?
  }

  ghost predicate SawDrive(ps: seq<Pass>) {
    exists i :: 0 <= i < |ps| && ps[i].Normal? && ps[i].present
  }

  /** With every write succeeding, the state file agrees with the loop from the first drive seen on, and is
      whatever an earlier process left until then. */
  lemma {:induction false} StateFileAgrees(file: Option<Record>, ps: seq<Pass>)
    requires AllWritten(ps)
    ensures SawDrive(ps) ==> Agrees(AfterAll(Start(file), ps))
    ensures !SawDrive(ps) ==> AfterAll(Start(file), ps) == Start(file)
  {
    if ps != [] {
      var k := |ps| - 1;
      var init := ps[..k];
      assert AllWritten(init);
      StateFileAgrees(file, init);
      assert SawDrive(ps) <==> SawDrive(init) || (ps[k].Normal? && ps[k].present) by {
        assert forall i :: 0 <= i < k ==> init[i] == ps[i];
        if SawDrive(init) {
          var i :| 0 <= i < |init| && init[i].Normal? && init[i].present;
          assert ps[i].Normal? && ps[i].present;
        }
      }
    }
  }

  /** Pass `k` is the last one that ran to the end. */
  ghost predicate LastNormal(ps: seq<Pass>, k: nat) {
    k < |ps| && ps[k].Normal? && forall i :: k < i < |ps| ==> ps[i].Escaped?
  }

  /** With every write succeeding, last_export_ts is set exactly if the last pass that ran to the end saw a drive that the
      pass before it that ran to the end had not, and exported something to it. */
  lemma {:induction false} TimestampIffExported(file: Option<Record>, ps: seq<Pass>, k: nat)
    requires AllWritten(ps) && SawDrive(ps) && LastNormal(ps, k)
    ensures var l := AfterAll(Start(file), ps);
            && l.file.Some?
            && (l.file.value.exportedNow <==>
                  ps[k].present && ps[k].exported > 0 && !AfterAll(Start(file), ps[..k]).last)
    decreases |ps|
  {
    var last := |ps| - 1;
    var init := ps[..last];
    StateFileAgrees(file, ps);
    if k < last {
      assert LastNormal(init, k) && init[..k] == ps[..k] && AllWritten(init);
      assert SawDrive(init) by {
        var i :| 0 <= i < |ps| && ps[i].Normal? && ps[i].present;
        assert init[i] == ps[i];
      }
      TimestampIffExported(file, init, k);
    } else if !ps[k].present && !AfterAll(Start(file), init).last {
      TimestampStaysUnset(file, init);
      assert SawDrive(init) by {
        var i :| 0 <= i < |ps| && ps[i].Normal? && ps[i].present;
        assert init[i] == ps[i];
      }
    }
  }

  /** Without a drive in sight there is no timestamp. */
  lemma {:induction false} TimestampStaysUnset(file: Option<Record>, ps: seq<Pass>)
    requires AllWritten(ps)
    ensures var l := AfterAll(Start(file), ps); SawDrive(ps) && !l.last ==> l.file.Some? && !l.file.value.exportedNow
  {
    if ps != [] {
      var init := ps[..|ps| - 1];
      assert AllWritten(init);
      TimestampStaysUnset(file, init);
      StateFileAgrees(file, init);
      if SawDrive(ps) && !SawDrive(init) {
        assert forall i :: 0 <= i < |init| ==> init[i] == ps[i];
      }
    }
  }
}
