/** Exactly when the promises about the ring hold: for each condition that the guarantees need, a run of a fresh
    sensor that breaks the promise without it. */
module Limits {
  import opened Hashing
  import opened Names
  import opened Files
  import opened Pipeline
  import opened Order
  import opened Safety
  import opened Guarantees
  import opened Reach
  import OldestFirst

  // ---------------------------------------------------------------- the file being written needs a safe threshold

  ghost predicate ActiveSafe(cfg: Config) {
    forall s :: Reachable(cfg, Any, s) && s.w.active.Some? ==> s.w.active.value in s.w.ring
  }

  /** The first capture goes quiet and is taken. */
  lemma SingleFileTaken(cfg: Config) returns (s: System)
    requires cfg.thresh <= 1
    ensures FromStart(cfg, Quiet, s) && s.w.active == Some("a") && "a" !in s.w.ring
  {
    Begin(cfg, Quiet);
    hide FromStart;
    s := Then(cfg, Quiet, START, NewCapture("a"));
    s := Then(cfg, Quiet, s, Wait(QUIET));
    assert s.w.ring == map["a" := File([], 0)];
    assert |s.w.ring| == 1;
    assert IsListing(["a"], s.w.ring);
    OldestFirst.FirstListedIsPicked(s.w.ring, ["a"], s.w.clock);
    hide OldestFirst.Pick, Step, IsListing;
    s := TickAims(cfg, s, ["a"], "a");
    s := Then(cfg, Quiet, s, MoverDo(Done));
  }

  /** A burst around a rotation, and then silence. */
  function TiedFiles(): World {
    var ring := map["a" := File([7], 1), "b" := File([], 1)];
    World(1, ring, map[], map[], map[], Some("b"), ["a", "b"], map["a" := [7]], 1)
  }

  lemma ReachTie(cfg: Config) returns (s: System)
    requires cfg.ties
    ensures FromStart(cfg, Quiet, s) && s == System(TiedFiles(), Asleep, Idle(false))
  {
    Begin(cfg, Quiet);
    hide FromStart;
    s := Then(cfg, Quiet, START, NewCapture("a"));
    s := Then(cfg, Quiet, s, Wait(1));
    s := Then(cfg, Quiet, s, Packets([7]));
    var data: Content := [7];
    assert [] + data == data;
    assert s.w.ring == map["a" := File(data, 1)];
    assert "a" != "b" by {
      assert "a"[0] != "b"[0];
    }
    s := Then(cfg, Quiet, s, NewCapture("b"));
    assert s.w.ring == map["a" := File(data, 1), "b" := File([], 1)];
  }

  lemma TiePicksNewer(now: int)
    requires now >= QUIET + 1
    ensures IsListing(["b", "a"], TiedFiles().ring) && |TiedFiles().ring| == 2
    ensures OldestFirst.Pick(TiedFiles().ring, ["b", "a"], now) == Some("b")
  {
    var ring := TiedFiles().ring;
    assert "a" != "b" by {
      assert "a"[0] != "b"[0];
    }
    assert IsListing(["b", "a"], ring);
    assert ring.Keys == {"a", "b"} && |ring| == |ring.Keys|;
    OldestFirst.FirstListedIsPicked(ring, ["b", "a"], now);
  }

  /** With two tied files and the newer one listed first, the file being written is taken. */
  lemma TiedFileTaken(cfg: Config) returns (s: System)
    requires cfg.ties && cfg.thresh <= 2
    ensures FromStart(cfg, Quiet, s) && s.w.active == Some("b") && "b" !in s.w.ring
  {
    hide FromStart, OldestFirst.Pick, IsListing;
    s := ReachTie(cfg);
    s := Then(cfg, Quiet, s, Wait(QUIET));
    TiePicksNewer(s.w.clock);
    assert s.w.ring == TiedFiles().ring && s.w.active == Some("b") && "b" in s.w.ring;
    hide Step, TiedFiles;
    s := TickAims(cfg, s, ["b", "a"], "b");
    s := Then(cfg, Quiet, s, MoverDo(Done));
  }

  /** The file tcpdump is writing stays in the ring in every run if and only if the threshold is at least two, or
      three when the clock is coarse enough for ties. */
  lemma ActiveSafeIff(cfg: Config)
    ensures ActiveSafe(cfg) <==> cfg.thresh >= if cfg.ties then 3 else 2
  {
    hide Reachable, FromStart;
    if Cautious(cfg) {
      forall s | Reachable(cfg, Any, s) && s.w.active.Some? ensures s.w.active.value in s.w.ring {
        ReachableIsOrdered(cfg, Any, s);
      }
    } else if cfg.thresh <= 1 {
      var s := SingleFileTaken(cfg);
      End(cfg, Quiet, s);
    } else {
      var s := TiedFileTaken(cfg);
      End(cfg, Quiet, s);
    }
  }

  // ---------------------------------------------------------------- first in, first out needs a fine clock

  ghost predicate AlwaysFifo(cfg: Config) {
    forall s, e :: Reachable(cfg, Any, s) && Admissible(cfg, s, e) ==>
      QueueStep(Queue(s.w), Queue(Step(cfg, s, e).w), e, false)
  }

  /** Two captures in the ring that tie. */
  lemma FillTied(cfg: Config) returns (s: System)
    requires cfg.ties
    ensures FromStart(cfg, Quiet, s) && Filled(cfg, s, 2)
    ensures Mtime(s.w.ring, Unary(0)) == Mtime(s.w.ring, Unary(1))
  {
    Begin(cfg, Quiet);
    StartIsFilled(cfg);
    FreshUnary(cfg, START, 0);
    var data: Content := [7];
    assert [] + data == data;
    var a, b := Unary(0), Unary(1);
    assert |a| == 1 && |b| == 2;
    hide FromStart, Unary, Inv, Filled;
    StartIsGood(cfg);
    RotateKeeps(cfg, START, a);
    s := Then(cfg, Quiet, START, NewCapture(a));
    s := LaterPacket(cfg, s, a, data);
    s := SecondFile(cfg, s, a, b, data);
    s := SecondPacket(cfg, s, a, b, data);
  }

  lemma StartIsGood(cfg: Config)
    ensures Inv(cfg, START)
  {
    FreshSensorIsGood(cfg, START);
    hide Inv;
  }

  lemma SecondFile(cfg: Config, s: System, a: Name, b: Name, data: Content) returns (s': System)
    requires cfg.ties && FromStart(cfg, Quiet, s) && Inv(cfg, s) && a != b
    requires s == System(World(1, map[a := File(data, 1)], map[], map[], map[], Some(a), [a], map[], 0), Asleep, Idle(false))
    ensures FromStart(cfg, Quiet, s') && Inv(cfg, s')
    ensures s' == System(World(1, map[a := File(data, 1), b := File([], 1)], map[], map[], map[], Some(b), [a, b],
                               map[a := data], 1), Asleep, Idle(false))
  {
    hide FromStart, Inv;
    RotateKeeps(cfg, s, b);
    s' := Then(cfg, Quiet, s, NewCapture(b));
  }

  lemma LaterPacket(cfg: Config, s: System, a: Name, data: Content) returns (s': System)
    requires FromStart(cfg, Quiet, s) && Inv(cfg, s) && [] + data == data
    requires s.w.active == Some(a) && s.w.ring == map[a := File([], 0)] && s.w.clock == 0
    ensures FromStart(cfg, Quiet, s') && Inv(cfg, s')
    ensures s' == s.(w := s.w.(ring := map[a := File(data, 1)], clock := 1))
  {
    hide FromStart, Inv;
    s' := Then(cfg, Quiet, s, Wait(1));
    ClockAndMountsKeep(cfg, s, 1, s.w.mounts);
    WriteKeeps(cfg, s', data);
    s' := Then(cfg, Quiet, s', Packets(data));
    assert s'.w.ring == map[a := File(data, 1)];
  }

  lemma SecondPacket(cfg: Config, s: System, a: Name, b: Name, data: Content) returns (s': System)
    requires FromStart(cfg, Quiet, s) && Inv(cfg, s) && data == [7] && [] + data == data
    requires a == Unary(0) && b == Unary(1) && a != b
    requires s == System(World(1, map[a := File(data, 1), b := File([], 1)], map[], map[], map[], Some(b), [a, b],
                               map[a := data], 1), Asleep, Idle(false))
    ensures FromStart(cfg, Quiet, s') && Filled(cfg, s', 2)
    ensures Mtime(s'.w.ring, Unary(0)) == Mtime(s'.w.ring, Unary(1))
  {
    hide FromStart, Inv, Unary;
    WriteKeeps(cfg, s, data);
    s' := Then(cfg, Quiet, s, Packets(data));
    assert s'.w.ring == map[a := File(data, 1), b := File(data, 1)];
    ClockAndMountsKeep(cfg, s', 2, s'.w.mounts);
    s' := Then(cfg, Quiet, s', Wait(1));
    assert s'.w.ring.Keys == {a, b} && |s'.w.ring| == |s'.w.ring.Keys|;
  }

  /** In a ring whose first two captures tie, all quiet, the second can be listed and picked first. */
  lemma SecondPicked(cfg: Config, w: World) returns (names: seq<Name>)
    requires Ready(cfg, w, Unary(0)) && |w.captured| >= 2 && w.captured[1] == Unary(1)
    requires Mtime(w.ring, Unary(0)) == Mtime(w.ring, Unary(1))
    ensures IsListing(names, w.ring) && OldestFirst.Pick(w.ring, names, w.clock) == Some(Unary(1))
  {
    hide Unary;
    var a, b := Unary(0), Unary(1);
    assert a in w.ring && b in w.ring;
    names := OldestFirst.ListFirst(w.ring, b);
    forall x | x in w.ring ensures w.ring[b].mtime <= w.ring[x].mtime {
      assert x in w.captured;
    }
    hide Ordered;
    OldestFirst.FirstListedIsPicked(w.ring, names, w.clock);
  }

  lemma SecondLeaves(w: World, w': World)
    requires Distinct(w.captured) && |w.captured| >= 2 && (forall i :: 0 <= i < |w.captured| ==> w.captured[i] in w.ring)
    requires w'.captured == w.captured && w'.ring == w.ring - {w.captured[1]}
    ensures !QueueStep(Queue(w), Queue(w'), MoverDo(Done), false)
  {
    WaitingAll(w.captured, w.ring);
    var m := WaitingWithout(w.captured, w.ring, w.captured[1]);
    assert m == 1;
    hide Waiting, Distinct;
    var q, q' := Queue(w), Queue(w');
    assert |q'| == |q| - 1 && q'[0] == q[0] && q[1..][0] == q[1];
    assert q[0] != q[1];
  }

  /** A ring that is ready for a tick, with its first two captures tied. */
  lemma ReadyTied(cfg: Config) returns (s: System)
    requires cfg.ties
    ensures FromStart(cfg, Quiet, s) && s.mover == Asleep && Ready(cfg, s.w, Unary(0))
    ensures |s.w.captured| >= 2 && s.w.captured[1] == Unary(1)
    ensures Mtime(s.w.ring, Unary(0)) == Mtime(s.w.ring, Unary(1))
  {
    hide FromStart, Unary, Inv, AllUnary, Ready;
    s := FillTied(cfg);
    var m := cfg.thresh + 2;
    TiedFilled(cfg, s);
    s := Fill(cfg, s, 2, m);
    FilledIsReady(cfg, s, m);
    FilledSecond(cfg, s, m);
    s := Then(cfg, Quiet, s, Wait(QUIET));
  }

  lemma OvertakesOnTie(cfg: Config) returns (s: System)
    requires cfg.ties && Cautious(cfg)
    ensures FromStart(cfg, Quiet, s) && Admissible(cfg, s, MoverDo(Done))
    ensures !QueueStep(Queue(s.w), Queue(Step(cfg, s, MoverDo(Done)).w), MoverDo(Done), false)
  {
    s := ReadyTied(cfg);
    var before := s.w;
    ReadyHasAll(cfg, before, Unary(0));
    var names := SecondPicked(cfg, before);
    hide FromStart, Unary, Ready, QueueStep, Queue, Step, Admissible, IsListing, OldestFirst.Pick, Distinct, Mtime;
    s := TickAims(cfg, s, names, Unary(1));
    SecondLeaves(before, Step(cfg, s, MoverDo(Done)).w);
    SameRingSameQueue(before, s.w);
  }

  lemma TiedFilled(cfg: Config, s: System)
    requires Filled(cfg, s, 2)
    ensures Unary(0) in s.w.ring && Unary(1) in s.w.ring
  {
    hide Inv, Unary;
    assert s.w.captured[0] == Unary(0) && s.w.captured[1] == Unary(1);
  }

  lemma FilledSecond(cfg: Config, s: System, m: nat)
    requires Filled(cfg, s, m) && m >= 2
    ensures |s.w.captured| >= 2 && s.w.captured[1] == Unary(1)
  {
    hide Inv, Unary;
  }

  lemma ReadyHasAll(cfg: Config, w: World, n: Name)
    requires Ready(cfg, w, n)
    ensures Distinct(w.captured) && forall i :: 0 <= i < |w.captured| ==> w.captured[i] in w.ring
    ensures |w.ring| >= cfg.thresh
  {
  }

  /** At a safe threshold, captures leave the ring first in, first out in every run if and only if the clock is fine
      enough to rule out ties. */
  lemma AlwaysFifoIff(cfg: Config)
    requires Cautious(cfg)
    ensures AlwaysFifo(cfg) <==> !cfg.ties
  {
    hide Reachable, FromStart, QueueStep, Queue, Step, Admissible;
    if cfg.ties {
      var s := OvertakesOnTie(cfg);
      End(cfg, Quiet, s);
    } else {
      forall s, e | Reachable(cfg, Any, s) && Admissible(cfg, s, e)
        ensures QueueStep(Queue(s.w), Queue(Step(cfg, s, e).w), e, false)
      {
        ReachableIsOrdered(cfg, Any, s);
        StepIsQueueStep(cfg, s, e);
      }
    }
  }

  // ---------------------------------------------------------------- work for every tick needs a threshold of three

  ghost predicate AlwaysWork(cfg: Config) {
    forall s, names :: Reachable(cfg, SpacedOut, s) && s.mover.Counted? && IsListing(names, s.w.ring) ==>
      OldestFirst.Pick(s.w.ring, names, s.w.clock).Some?
  }

  /** The first file is written to until just before the second is opened. */
  function TwoFiles(): World {
    var ring := map["a" := File([7], QUIET), "b" := File([], QUIET + 1)];
    World(QUIET + 1, ring, map[], map[], map[], Some("b"), ["a", "b"], map["a" := [7]], QUIET + 1)
  }

  function OneFile(): World {
    World(QUIET + 1, map["a" := File([7], QUIET)], map[], map[], map[], Some("a"), ["a"], map[], 0)
  }

  lemma ReachOneFile(cfg: Config) returns (s: System)
    ensures FromStart(cfg, SpacedOut, s) && s == System(OneFile(), Asleep, Idle(false))
  {
    Begin(cfg, SpacedOut);
    hide FromStart;
    s := Then(cfg, SpacedOut, START, NewCapture("a"));
    s := Then(cfg, SpacedOut, s, Wait(QUIET));
    s := Then(cfg, SpacedOut, s, Packets([7]));
    var data: Content := [7];
    assert [] + data == data;
    assert s.w.ring == map["a" := File(data, QUIET)];
    s := Then(cfg, SpacedOut, s, Wait(1));
  }

  lemma NothingClosed(cfg: Config) returns (s: System)
    requires cfg.thresh <= 2
    ensures FromStart(cfg, SpacedOut, s) && s.mover.Counted? && IsListing(["a", "b"], s.w.ring)
    ensures OldestFirst.Pick(s.w.ring, ["a", "b"], s.w.clock) == None
  {
    hide FromStart, OldestFirst.Pick, IsListing;
    s := ReachOneFile(cfg);
    assert "a" != "b" by {
      assert "a"[0] != "b"[0];
    }
    s := Then(cfg, SpacedOut, s, NewCapture("b"));
    assert s == System(TwoFiles(), Asleep, Idle(false));
    TwoFilesOpen();
    hide TwoFiles;
    s := Then(cfg, SpacedOut, s, MoverDo(Done));
  }

  lemma TwoFilesOpen()
    ensures IsListing(["a", "b"], TwoFiles().ring) && |TwoFiles().ring| == 2
    ensures OldestFirst.Pick(TwoFiles().ring, ["a", "b"], TwoFiles().clock) == None
  {
    assert "a" != "b" by {
      assert "a"[0] != "b"[0];
    }
    assert IsListing(["a", "b"], TwoFiles().ring);
    assert TwoFiles().ring.Keys == {"a", "b"} && |TwoFiles().ring| == |TwoFiles().ring.Keys|;
    OldestFirst.PickIsOldest(TwoFiles().ring, ["a", "b"], TwoFiles().clock);
  }

  /** With rotations at least QUIET_SECS apart, every tick that finds the threshold met has a closed file to move if
      and only if the threshold is at least three. */
  lemma AlwaysWorkIff(cfg: Config)
    ensures AlwaysWork(cfg) <==> cfg.thresh >= 3
  {
    hide Reachable, FromStart;
    if cfg.thresh >= 3 {
      forall s, names | Reachable(cfg, SpacedOut, s) && s.mover.Counted? && IsListing(names, s.w.ring)
        ensures OldestFirst.Pick(s.w.ring, names, s.w.clock).Some?
      {
        ReachableIsOrdered(cfg, SpacedOut, s);
        hide Ordered, StrictPart, Spaced;
        var x := ThirdFileIsClosed(s.w);
        OldestFirst.PickIsOldest(s.w.ring, names, s.w.clock);
      }
    } else {
      var s := NothingClosed(cfg);
      End(cfg, SpacedOut, s);
    }
  }
}
