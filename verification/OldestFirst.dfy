/** pick_oldest_closed: sort the ring by mtime and take the first file that has been quiet long enough. */
module OldestFirst {
  import opened Names
  import opened Files
  import opened Sorting

  function ByMtime(ring: Directory): (Name, Name) -> bool {
    (a: Name, b: Name) => Mtime(ring, a) <= Mtime(ring, b)
  }

  lemma ByMtimeIsTotal(ring: Directory)
    ensures TotalPreorder(ByMtime(ring))
  {
  }

  /** closed(p): quiet for at least QUIET_SECS, or gone. */
  predicate Closed(ring: Directory, n: Name, now: int) {
    n in ring && now - ring[n].mtime >= QUIET
  }

  /** What there is to see when a file is examined: the ring and the clock at that moment. */
  datatype Look = Look(ring: Directory, clock: int)

  /** The first file that is found closed; `looks[i]` is what there is to see when file `i` is examined. */
  function FirstClosed(files: seq<Name>, looks: seq<Look>): (r: Option<Name>)
    requires |looks| == |files|
  {
    if files == [] then None
    else if Closed(looks[0].ring, files[0], looks[0].clock) then Some(files[0])
    else FirstClosed(files[1..], looks[1..])
  }

  function Steady(ring: Directory, now: int, n: nat): (looks: seq<Look>)
    ensures |looks| == n && forall i :: 0 <= i < n ==> looks[i] == Look(ring, now)
  {
    seq(n, _ => Look(ring, now))
  }

  /** Every listed file is still there when the sort asks for its mtime; if one is not, the script dies. */
  predicate Sortable(ring: Directory, listing: seq<Name>) {
    forall n :: n in listing ==> n in ring
  }

  /** pick_oldest_closed on one clock value; no file is picked when the sort raises. */
  function Pick(ring: Directory, listing: seq<Name>, now: int): (r: Option<Name>) {
    if Sortable(ring, listing) then FirstClosed(SortBy(ByMtime(ring), listing), Steady(ring, now, |listing|)) else None
  }

  datatype Outcome = Raised | Picked(file: Option<Name>)

  /** The scan as the code runs it: sort the list, which raises if a file has vanished, then examine one file after
      the other, looking at its mtime and the clock each time; a file that vanishes meanwhile is not closed. */
  method PickOldestClosed(ring: Directory, listing: seq<Name>, looks: seq<Look>) returns (r: Outcome)
    requires |looks| == |listing|
    ensures r.Raised? <==> exists n :: n in listing && n !in ring
    ensures r.Picked? ==> r.file == FirstClosed(SortBy(ByMtime(ring), listing), looks)
    ensures forall now: int :: looks == Steady(ring, now, |listing|) ==>
              Pick(ring, listing, now) == if r.Picked? then r.file else None
  {
    for k := 0 to |listing|
      invariant forall i :: 0 <= i < k ==> listing[i] in ring
    {
      if listing[k] !in ring {
        return Raised;
      }
    }
    var files := SortBy(ByMtime(ring), listing);
    ghost var whole := FirstClosed(files, looks);
    var i := 0;
    while i < |files|
      invariant 0 <= i <= |files|
      invariant whole == FirstClosed(files[i..], looks[i..])
    {
      if Closed(looks[i].ring, files[i], looks[i].clock) {
        return Picked(Some(files[i]));
      }
      assert files[i..][1..] == files[i + 1..] && looks[i..][1..] == looks[i + 1..];
      i := i + 1;
    }
    return Picked(None);
  }

  ghost predicate Oldest(ring: Directory, n: Name) {
    n in ring && forall x :: x in ring ==> ring[n].mtime <= ring[x].mtime
  }

  lemma {:induction false} FirstClosedSteady(ring: Directory, files: seq<Name>, now: int)
    requires SortedBy(ByMtime(ring), files) && forall n :: n in files ==> n in ring
    ensures var r := FirstClosed(files, Steady(ring, now, |files|));
            if files != [] && Closed(ring, files[0], now) then r == Some(files[0])
            else r == None && forall n :: n in files ==> !Closed(ring, n, now)
  {
    if files != [] && !Closed(ring, files[0], now) {
      assert Steady(ring, now, |files|)[1..] == Steady(ring, now, |files| - 1);
      forall n | n in files[1..] ensures !Closed(ring, n, now) {
        var j :| 0 <= j < |files[1..]| && files[1..][j] == n;
        assert ByMtime(ring)(files[0], files[j + 1]);
      }
      FirstClosedSteady(ring, files[1..], now);
    }
  }

  /** On one clock value the pick is the closed file with least mtime, earliest in the listing among
      equals; there is no pick exactly when no file is closed. */
  lemma PickIsOldest(ring: Directory, listing: seq<Name>, now: int)
    requires IsListing(listing, ring)
    ensures var r := Pick(ring, listing, now);
            && (r == None <==> forall n :: n in ring ==> !Closed(ring, n, now))
            && (r == None <==> forall n :: n in ring ==> now - ring[n].mtime < 3_000_000_000)
            && (r.Some? ==> Oldest(ring, r.value) && Closed(ring, r.value, now))
            && (r.Some? ==> now - ring[r.value].mtime >= 3_000_000_000)
            && (r.Some? ==> exists i :: 0 <= i < |listing| && listing[i] == r.value &&
                                        forall j :: 0 <= j < i ==> Mtime(ring, listing[j]) > Mtime(ring, r.value))
  {
    var le := ByMtime(ring);
    ByMtimeIsTotal(ring);
    var files := SortBy(le, listing);
    forall n ensures n in files <==> n in ring {
      SortSameMembers(le, listing, n);
    }
    SortIsSortedPermutation(le, listing);
    FirstClosedSteady(ring, files, now);
    if listing != [] {
      var i := SortHead(le, listing);
      assert files[0] == listing[i];
      forall x | x in ring ensures ring[files[0]].mtime <= ring[x].mtime {
        var j :| 0 <= j < |listing| && listing[j] == x;
        assert le(listing[i], listing[j]);
      }
      forall j | 0 <= j < i ensures Mtime(ring, listing[j]) > Mtime(ring, files[0]) {
        assert !le(listing[j], listing[i]);
      }
    }
  }

  /** Every directory can be listed. */
  lemma {:induction false} Listable(dir: Directory) returns (listing: seq<Name>)
    ensures IsListing(listing, dir)
    decreases |dir|
  {
    if dir == map[] {
      listing := [];
    } else {
      var n :| n in dir;
      listing := ListFirst(dir, n);
    }
  }

  /** And with any file of it in front. */
  lemma {:induction false} ListFirst(dir: Directory, n: Name) returns (listing: seq<Name>)
    requires n in dir
    ensures IsListing(listing, dir) && listing != [] && listing[0] == n
    decreases |dir|, 0
  {
    var rest := dir - {n};
    assert rest.Keys == dir.Keys - {n} && |rest| == |rest.Keys| && |dir| == |dir.Keys|;
    var others := Listable(rest);
    listing := [n] + others;
    assert Distinct(listing) by {
      assert forall i :: 0 <= i < |others| ==> others[i] in others;
    }
    forall x ensures x in listing <==> x in dir {
      assert x in others <==> x in rest;
    }
  }

  /** A closed file of least mtime that is listed first is picked. */
  lemma FirstListedIsPicked(ring: Directory, listing: seq<Name>, now: int)
    requires IsListing(listing, ring) && listing != [] && Oldest(ring, listing[0]) && Closed(ring, listing[0], now)
    ensures Pick(ring, listing, now) == Some(listing[0])
  {
    PickIsOldest(ring, listing, now);
    var r := Pick(ring, listing, now);
    hide Pick;
    assert Mtime(ring, listing[0]) <= Mtime(ring, r.value);
  }

  /** The order in which the file system lists the ring makes no difference to the pick. */
  ghost predicate ListingIrrelevant(ring: Directory, now: int) {
    forall a, b :: IsListing(a, ring) && IsListing(b, ring) ==> Pick(ring, a, now) == Pick(ring, b, now)
  }

  /** The pick is settled by the mtimes alone if and only if no two closed files tie for the least one. */
  lemma PickSettledIff(ring: Directory, now: int)
    ensures ListingIrrelevant(ring, now) <==>
              forall x, y :: Oldest(ring, x) && Closed(ring, x, now) && Oldest(ring, y) && Closed(ring, y, now) ==> x == y
  {
    if x, y :| Oldest(ring, x) && Closed(ring, x, now) && Oldest(ring, y) && Closed(ring, y, now) && x != y {
      var a := ListFirst(ring, x);
      var b := ListFirst(ring, y);
      FirstListedIsPicked(ring, a, now);
      FirstListedIsPicked(ring, b, now);
    } else {
      forall a, b | IsListing(a, ring) && IsListing(b, ring) ensures Pick(ring, a, now) == Pick(ring, b, now) {
        PickIsOldest(ring, a, now);
        PickIsOldest(ring, b, now);
        hide Pick;
      }
    }
  }

  // The code reads the clock anew for every file it examines.

  /** The same ring at every look, while the clock moves by at most `drift`. */
  ghost predicate Drifting(looks: seq<Look>, ring: Directory, n: nat, drift: int) {
    && |looks| == n && (forall i :: 0 <= i < n ==> looks[i].ring == ring)
    && (forall i, j :: 0 <= i < j < n ==> looks[i].clock <= looks[j].clock <= looks[i].clock + drift)
  }

  ghost predicate ScanKeepsOrder(ring: Directory, files: seq<Name>, drift: int)
    requires files != []
  {
    forall looks :: Drifting(looks, ring, |files|, drift) ==> FirstClosed(files, looks) in {None, Some(files[0])}
  }

  lemma {:induction false} NoneClosed(files: seq<Name>, looks: seq<Look>)
    requires |looks| == |files|
    requires forall i :: 0 <= i < |files| ==> !Closed(looks[i].ring, files[i], looks[i].clock)
    ensures FirstClosed(files, looks) == None
  {
    if files != [] {
      forall i | 0 <= i < |files[1..]| ensures !Closed(looks[1..][i].ring, files[1..][i], looks[1..][i].clock) {
        assert !Closed(looks[i + 1].ring, files[i + 1], looks[i + 1].clock);
      }
      NoneClosed(files[1..], looks[1..]);
    }
  }

  /** A sorted ring is evacuated oldest-first for every clock that moves by at most `drift` during the scan,
      exactly when the two oldest files are at least `drift` apart. */
  lemma ScanKeepsOrderIff(ring: Directory, files: seq<Name>, drift: nat)
    requires Distinct(files) && |files| >= 2
    requires SortedBy(ByMtime(ring), files) && forall n :: n in files ==> n in ring
    ensures ScanKeepsOrder(ring, files, drift) <==> drift <= ring[files[1]].mtime - ring[files[0]].mtime
  {
    var m0, m1 := ring[files[0]].mtime, ring[files[1]].mtime;
    if drift <= m1 - m0 {
      forall looks: seq<Look> | Drifting(looks, ring, |files|, drift)
        ensures FirstClosed(files, looks) in {None, Some(files[0])}
      {
        if !Closed(ring, files[0], looks[0].clock) {
          forall i | 0 <= i < |files| ensures !Closed(looks[i].ring, files[i], looks[i].clock) {
            if i > 0 {
              assert i == 1 || ByMtime(ring)(files[1], files[i]);
              assert looks[i].clock <= looks[0].clock + drift;
            }
          }
          NoneClosed(files, looks);
        }
      }
    } else {
      var start := m0 + QUIET - 1;
      var looks := [Look(ring, start)] + Steady(ring, start + drift, |files| - 1);
      assert Drifting(looks, ring, |files|, drift);
      assert Closed(ring, files[1], looks[1].clock) && !Closed(ring, files[0], looks[0].clock);
      assert FirstClosed(files[1..], looks[1..]) == Some(files[1]);
      assert FirstClosed(files, looks) == Some(files[1]);
    }
  }
}
