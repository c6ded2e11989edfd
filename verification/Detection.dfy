/** The drive detectors of the mover and of the daemon. */
module Detection {
  import opened Files

  /** What the operating system says about a mount candidate; `stat` is None if statvfs raises. */
  datatype Candidate = Candidate(mount: Mount, isMount: bool, writable: bool, stat: Option<Stat>)

  /** f_bavail, f_blocks and f_frsize. */
  datatype Stat = Stat(available: nat, blocks: nat, fragment: nat)

  function FreeBytes(st: Stat): nat {
    st.available * st.fragment
  }

  function TotalBytes(st: Stat): nat {
    st.blocks * st.fragment
  }

  /** free_pct as the programs compute it, over exact numbers. */
  function FreePct(st: Stat): real {
    if TotalBytes(st) > 0 then FreeBytes(st) as real / TotalBytes(st) as real * 100.0 else 0.0
  }

  /** What the percentage test means: no division, and an empty file system counts as full. */
  ghost predicate EnoughSpace(st: Stat, minFreePct: real) {
    if st.blocks * st.fragment == 0 then minFreePct <= 0.0
    else minFreePct * (st.blocks * st.fragment) as real <= 100.0 * (st.available * st.fragment) as real
  }

  /** A drive with nothing available never qualifies for a positive minimum, and one with everything available does for
      any minimum up to a hundred. */
  lemma FullAndEmptyDrives(st: Stat, minFreePct: real)
    requires st.blocks * st.fragment > 0
    ensures st.available == 0 && minFreePct > 0.0 ==> !EnoughSpace(st, minFreePct)
    ensures st.available == st.blocks && minFreePct <= 100.0 ==> EnoughSpace(st, minFreePct)
  {
    var total := (st.blocks * st.fragment) as real;
    if st.available == 0 && minFreePct > 0.0 {
      assert minFreePct * total > 0.0;
    }
    if minFreePct <= 100.0 {
      assert minFreePct * total <= 100.0 * total;
    }
  }

  /** The percentage test is an exact comparison of products. */
  lemma PercentTest(st: Stat, minFreePct: real)
    ensures FreePct(st) >= minFreePct <==> EnoughSpace(st, minFreePct)
  {
  }

  ghost predicate Qualifies(c: Candidate, minFreePct: real) {
    c.isMount && c.writable && c.stat.Some? && EnoughSpace(c.stat.value, minFreePct)
  }

  /** `i` is the first candidate that qualifies. */
  ghost predicate FirstAt(cs: seq<Candidate>, minFreePct: real, i: nat) {
    i < |cs| && Qualifies(cs[i], minFreePct) && forall j :: 0 <= j < i ==> !Qualifies(cs[j], minFreePct)
  }

  /** detect_export_target: the mount and its free bytes, or (None, 0). */
  method DetectExportTarget(cs: seq<Candidate>, minFreePct: real) returns (mount: Option<Mount>, free: nat)
    ensures mount.None? <==> forall i :: 0 <= i < |cs| ==> !Qualifies(cs[i], minFreePct)
    ensures mount.None? ==> free == 0
    ensures mount.Some? ==>
              exists i: nat ::
                && FirstAt(cs, minFreePct, i) && mount.value == cs[i].mount
                && free == cs[i].stat.value.available * cs[i].stat.value.fragment
  {
    for i := 0 to |cs|
      invariant forall j :: 0 <= j < i ==> !Qualifies(cs[j], minFreePct)
    {
      var c := cs[i];
      if !c.isMount || !c.writable || c.stat.None? {
        continue;
      }
      PercentTest(c.stat.value, minFreePct);
      if FreePct(c.stat.value) >= minFreePct {
        assert FirstAt(cs, minFreePct, i);
        return Some(c.mount), FreeBytes(c.stat.value);
      }
    }
    return None, 0;
  }

  /** detect_export_drive: the mount and the dated directory on it, or (None, None). */
  method DetectExportDrive(cs: seq<Candidate>, minFreePct: real, today: Date)
    returns (mount: Option<Mount>, directory: Option<(Mount, Date)>)
    ensures mount.None? <==> forall i :: 0 <= i < |cs| ==> !Qualifies(cs[i], minFreePct)
    ensures mount.Some? ==> exists i: nat :: FirstAt(cs, minFreePct, i) && mount.value == cs[i].mount
    ensures directory == if mount.Some? then Some((mount.value, today)) else None
  {
    for i := 0 to |cs|
      invariant forall j :: 0 <= j < i ==> !Qualifies(cs[j], minFreePct)
    {
      var c := cs[i];
      if c.isMount && c.writable && c.stat.Some? {
        PercentTest(c.stat.value, minFreePct);
        if FreePct(c.stat.value) >= minFreePct {
          assert FirstAt(cs, minFreePct, i);
          return Some(c.mount), Some((c.mount, today));
        }
      }
    }
    return None, None;
  }

  /** On the same mount table and configuration the mover and the daemon find the same drive. */
  method DetectorsAgree(cs: seq<Candidate>, minFreePct: real, today: Date)
    returns (daemon: Option<Mount>, mover: Option<Mount>)
    ensures daemon == mover
  {
    var free, directory;
    daemon, free := DetectExportTarget(cs, minFreePct);
    mover, directory := DetectExportDrive(cs, minFreePct, today);
    if daemon.Some? && mover.Some? {
      ghost var i: nat :| FirstAt(cs, minFreePct, i) && daemon.value == cs[i].mount;
      ghost var j: nat :| FirstAt(cs, minFreePct, j) && mover.value == cs[j].mount;
      assert i == j;
    }
  }
}
