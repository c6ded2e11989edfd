/** Runs of a fresh sensor, one event at a time. */
module Reach {
  import opened Hashing
  import opened Names
  import opened Files
  import opened Sorting
  import opened Pipeline
  import opened Order
  import opened Safety
  import opened Guarantees
  import opened QuietMoves
  import OldestFirst

  // ---------------------------------------------------------------- reachable states

  /** Any run, one with rotations at least QUIET_SECS apart, or one in which no volume is attached at its destination
      while the daemon is about to move. */
  datatype Kind = Any | SpacedOut | Quiet

  ghost predicate OfKind(cfg: Config, s: System, es: seq<Event>, kind: Kind) {
    (kind.SpacedOut? ==> SpacedRun(cfg, s, es)) && (kind.Quiet? ==> QuietRun(cfg, s, es))
  }

  ghost predicate EventOfKind(s: System, e: Event, kind: Kind) {
    (kind.SpacedOut? ==> SpacedEvent(s, e)) && (kind.Quiet? ==> QuietEvent(s, e))
  }

  /** Some admissible run from `s0` ends here. */
  ghost predicate Reaches(cfg: Config, s0: System, kind: Kind, s: System) {
    exists es :: AdmissibleRun(cfg, s0, es) && OfKind(cfg, s0, es, kind) && Run(cfg, s0, es) == s
  }

  /** Some admissible run of a fresh sensor ends here. */
  ghost predicate Reachable(cfg: Config, kind: Kind, s: System) {
    exists s0 :: FreshSensor(s0) && Reaches(cfg, s0, kind, s)
  }

  /** The runs that are built here start with nothing attached, and the daemon is not killed in them. */
  ghost predicate Built(cfg: Config, kind: Kind, es: seq<Event>) {
    && AdmissibleRun(cfg, START, es) && OfKind(cfg, START, es, kind)
    && forall e :: e in es ==> !e.DaemonKilled?
  }

  ghost predicate FromStart(cfg: Config, kind: Kind, s: System) {
    exists es :: Built(cfg, kind, es) && Run(cfg, START, es) == s
  }

  lemma Begin(cfg: Config, kind: Kind)
    ensures FromStart(cfg, kind, START)
  {
    assert Built(cfg, kind, []) && Run(cfg, START, []) == START;
  }

  lemma End(cfg: Config, kind: Kind, s: System)
    requires FromStart(cfg, kind, s)
    ensures Reachable(cfg, kind, s) && Reachable(cfg, Any, s)
  {
    var es :| Built(cfg, kind, es) && Run(cfg, START, es) == s;
    hide Run, AdmissibleRun, SpacedRun, QuietRun;
    assert FreshSensor(START) && Reaches(cfg, START, kind, s) && Reaches(cfg, START, Any, s);
  }

  lemma Forget(cfg: Config, kind: Kind, s: System)
    requires FromStart(cfg, kind, s)
    ensures FromStart(cfg, Any, s)
  {
    var es :| Built(cfg, kind, es) && Run(cfg, START, es) == s;
    hide Run, AdmissibleRun, SpacedRun, QuietRun;
    assert Built(cfg, Any, es);
  }

  lemma Then(cfg: Config, kind: Kind, s: System, e: Event) returns (s': System)
    requires FromStart(cfg, kind, s) && Admissible(cfg, s, e) && EventOfKind(s, e, kind) && !e.DaemonKilled?
    ensures s' == Step(cfg, s, e) && FromStart(cfg, kind, s')
  {
    s' := Step(cfg, s, e);
    var es :| Built(cfg, kind, es) && Run(cfg, START, es) == s;
    hide Admissible, Step, SpacedEvent, QuietEvent;
    AdmissibleSnoc(cfg, START, es, e);
    RunSnoc(cfg, START, es, e);
    assert (es + [e])[..|es|] == es;
    assert OfKind(cfg, START, es + [e], kind);
    assert Built(cfg, kind, es + [e]) && Run(cfg, START, es + [e]) == s';
  }

  lemma ReachableIsOrdered(cfg: Config, kind: Kind, s: System)
    requires Cautious(cfg) && Reachable(cfg, kind, s)
    ensures OrderInv(cfg, s) && (kind.SpacedOut? ==> Spaced(s.w))
  {
    var s0 :| FreshSensor(s0) && Reaches(cfg, s0, kind, s);
    var es :| AdmissibleRun(cfg, s0, es) && OfKind(cfg, s0, es, kind) && Run(cfg, s0, es) == s;
    assert kind.SpacedOut? ==> SpacedRun(cfg, s0, es);
    FreshSensorIsGood(cfg, s0);
    hide *;
    InvIsOrdered(cfg, s0);
    RunKeepsOrder(cfg, s0, es);
    if kind.SpacedOut? {
      RunSpaced(cfg, s0, es);
    }
  }

  lemma ReachableIsGood(cfg: Config, s: System)
    requires Sane(cfg) && Reachable(cfg, Any, s)
    ensures Inv(cfg, s)
  {
    var s0 :| FreshSensor(s0) && Reaches(cfg, s0, Any, s);
    var es :| AdmissibleRun(cfg, s0, es) && Run(cfg, s0, es) == s;
    FreshSensorIsGood(cfg, s0);
    hide *;
    RunKeeps(cfg, s0, es);
  }

  // ---------------------------------------------------------------- a ring that fills

  function Unary(i: nat): (n: Name)
    ensures |n| == i + 1
  {
    seq(i + 1, _ => 'a')
  }

  ghost predicate AllUnary(captured: seq<Name>, ring: Directory) {
    forall i :: 0 <= i < |captured| ==> captured[i] == Unary(i) && captured[i] in ring
  }

  ghost predicate AllWritten(ring: Directory, clock: int) {
    forall x :: x in ring ==> ring[x].mtime < clock && ring[x].content == [7]
  }

  /** A sensor that has captured `m` files, all still in the ring, and done nothing else. */
  ghost predicate Filled(cfg: Config, s: System, m: nat) {
    && s.mover == Asleep && s.daemon == Idle(false)
    && s.w.backlog == map[] && s.w.stores == map[] && s.w.mounts == map[]
    && Inv(cfg, s) && |s.w.captured| == m && |s.w.ring| == m && s.w.rotated < s.w.clock
    && AllUnary(s.w.captured, s.w.ring) && AllWritten(s.w.ring, s.w.clock)
    && (m > 0 ==> s.w.active == Some(Unary(m - 1)))
  }

  lemma FreshUnary(cfg: Config, s: System, m: nat)
    requires Filled(cfg, s, m)
    ensures FreshCapture(cfg, s.w, Unary(m)) && Unary(m) !in s.w.ring
  {
    var n := Unary(m);
    assert n !in s.w.captured by {
      assert forall i :: 0 <= i < m ==> |s.w.captured[i]| == i + 1;
    }
    hide Kept, CopyOk, MoverOk, StrictPart, DaemonOk, Unary;
  }

  lemma CaptureStepsKeep(cfg: Config, s: System, n: Name)
    requires Inv(cfg, s) && FreshCapture(cfg, s.w, n)
    ensures Inv(cfg, Step(cfg, Step(cfg, Step(cfg, s, NewCapture(n)), Packets([7])), Wait(1)))
  {
    hide Inv, FreshCapture, Rotate, Write;
    RotateKeeps(cfg, s, n);
    var s1 := Step(cfg, s, NewCapture(n));
    WriteKeeps(cfg, s1, [7]);
    var s2 := Step(cfg, s1, Packets([7]));
    ClockAndMountsKeep(cfg, s2, s2.w.clock + 1, s2.w.mounts);
  }

  lemma FillOne(cfg: Config, s: System, m: nat) returns (s': System)
    requires FromStart(cfg, Quiet, s) && Filled(cfg, s, m)
    ensures FromStart(cfg, Quiet, s') && Filled(cfg, s', m + 1)
    ensures forall x :: x in s.w.ring ==> x in s'.w.ring && s'.w.ring[x] == s.w.ring[x]
  {
    FreshUnary(cfg, s, m);
    hide FromStart, Inv, Unary, FreshCapture, Step;
    var n := Unary(m);
    CaptureStepsKeep(cfg, s, n);
    ThreeSteps(cfg, s, n);
    s' := Then(cfg, Quiet, s, NewCapture(n));
    s' := Then(cfg, Quiet, s', Packets([7]));
    s' := Then(cfg, Quiet, s', Wait(1));
    FilledOne(cfg, s, s', m);
  }

  /** A new file, one packet in it, and a moment later. */
  lemma ThreeSteps(cfg: Config, s: System, n: Name)
    ensures var s' := Step(cfg, Step(cfg, Step(cfg, s, NewCapture(n)), Packets([7])), Wait(1));
            && s' == s.(w := s'.w) && s'.w.backlog == s.w.backlog && s'.w.stores == s.w.stores && s'.w.mounts == s.w.mounts
            && s'.w.ring == s.w.ring[n := File([7], s.w.clock)] && s'.w.captured == s.w.captured + [n]
            && s'.w.active == Some(n) && s'.w.clock == s.w.clock + 1 && s'.w.rotated == s.w.clock
  {
    var data: Content := [7];
    assert [] + data == data;
    var s' := Step(cfg, Step(cfg, Step(cfg, s, NewCapture(n)), Packets(data)), Wait(1));
    assert s'.w.ring == s.w.ring[n := File(data, s.w.clock)];
  }

  lemma FilledOne(cfg: Config, s: System, s': System, m: nat)
    requires Filled(cfg, s, m) && Unary(m) !in s.w.ring && Inv(cfg, s')
    requires var n := Unary(m);
             && s' == s.(w := s'.w) && s'.w.backlog == s.w.backlog && s'.w.stores == s.w.stores && s'.w.mounts == s.w.mounts
             && s'.w.ring == s.w.ring[n := File([7], s.w.clock)] && s'.w.captured == s.w.captured + [n]
             && s'.w.active == Some(n) && s'.w.clock == s.w.clock + 1 && s'.w.rotated == s.w.clock
    ensures Filled(cfg, s', m + 1)
  {
    hide Inv, Unary;
    AddedSize(s.w.ring, Unary(m), File([7], s.w.clock));
    assert AllUnary(s'.w.captured, s'.w.ring);
    hide AllUnary;
  }

  lemma AddedSize(ring: Directory, n: Name, f: File)
    requires n !in ring
    ensures |ring[n := f]| == |ring| + 1
  {
    var ring' := ring[n := f];
    assert ring'.Keys == ring.Keys + {n};
    assert |ring'| == |ring'.Keys| && |ring| == |ring.Keys|;
  }

  lemma StartIsFilled(cfg: Config)
    ensures Filled(cfg, START, 0)
  {
    FreshSensorIsGood(cfg, START);
    hide Inv;
  }

  /** From `from` captures to `m`. */
  lemma {:induction false} Fill(cfg: Config, s: System, from: nat, m: nat) returns (s': System)
    requires FromStart(cfg, Quiet, s) && Filled(cfg, s, from) && from <= m
    ensures FromStart(cfg, Quiet, s') && Filled(cfg, s', m)
    ensures forall x :: x in s.w.ring ==> x in s'.w.ring && s'.w.ring[x] == s.w.ring[x]
  {
    hide FromStart, Filled;
    if m == from {
      s' := s;
    } else {
      s' := Fill(cfg, s, from, m - 1);
      s' := FillOne(cfg, s', m - 1);
    }
  }

  // ---------------------------------------------------------------- a ring that is ready for a tick

  /** A ring full enough that holds all captures, whose oldest file is the first capture and has gone quiet. */
  ghost predicate Ready(cfg: Config, w: World, n: Name) {
    && Ordered(w) && w.captured != [] && w.captured[0] == n
    && (forall i :: 0 <= i < |w.captured| ==> w.captured[i] in w.ring)
    && |w.ring| >= cfg.thresh && OldestFirst.Closed(w.ring, n, w.clock)
  }

  lemma FirstIsClosed(cfg: Config, s: System, m: nat)
    requires Filled(cfg, s, m) && m >= 2
    ensures var n := Unary(0); n in s.w.ring && n in s.w.original && s.w.original[n] == [7]
    ensures Unary(0) in s.w.captured && s.w.active != Some(Unary(0))
  {
    var n := Unary(0);
    assert |Unary(m - 1)| == m && |n| == 1;
    assert s.w.captured[0] == n;
    hide Unary, Ordered, StrictPart;
    assert KeptOne(s.w.ring, s.w.backlog, s.w.stores, n, s.w.original[n]);
  }

  lemma FilledIsReady(cfg: Config, s: System, m: nat)
    requires Filled(cfg, s, m) && m >= cfg.thresh && m >= 1
    ensures Ready(cfg, Step(cfg, s, Wait(QUIET)).w, Unary(0))
  {
    ClockAndMountsKeep(cfg, s, s.w.clock + QUIET, s.w.mounts);
    hide Kept, MoverOk, StrictPart, CopyOk, DaemonOk, Unary;
  }

  lemma ReadySensor(cfg: Config) returns (s: System, n: Name)
    ensures FromStart(cfg, Quiet, s) && s.mover == Asleep && s.daemon == Idle(false) && Ready(cfg, s.w, n)
    ensures s.w.backlog == map[] && s.w.stores == map[] && s.w.mounts == map[]
    ensures n in s.w.ring && s.w.ring[n].content == [7] && n in s.w.original && s.w.original[n] == [7]
    ensures n in s.w.captured && s.w.active != Some(n)
  {
    Begin(cfg, Quiet);
    StartIsFilled(cfg);
    hide FromStart, Inv, Unary, Ready, AllUnary;
    s := Fill(cfg, START, 0, cfg.thresh + 2);
    n := Unary(0);
    FirstIsClosed(cfg, s, cfg.thresh + 2);
    FilledIsReady(cfg, s, cfg.thresh + 2);
    s := Then(cfg, Quiet, s, Wait(QUIET));
  }

  /** Listed in capture order, the first capture is picked. */
  lemma ReadyPick(cfg: Config, w: World, n: Name)
    requires Ready(cfg, w, n)
    ensures IsListing(w.captured, w.ring) && OldestFirst.Pick(w.ring, w.captured, w.clock) == Some(n)
  {
    assert IsListing(w.captured, w.ring) by {
      forall x ensures x in w.captured <==> x in w.ring {
      }
    }
    assert OldestFirst.Oldest(w.ring, n) by {
      forall x | x in w.ring ensures w.ring[n].mtime <= w.ring[x].mtime {
        assert x in w.captured;
      }
    }
    hide Ordered;
    OldestFirst.FirstListedIsPicked(w.ring, w.captured, w.clock);
  }

  lemma ReadySame(cfg: Config, w: World, w': World, n: Name)
    requires Ready(cfg, w, n) && w' == w.(backlog := w'.backlog, mounts := w'.mounts, stores := w'.stores)
    requires forall x :: x in w'.backlog ==> x in w.captured && w.active != Some(x)
    ensures Ready(cfg, w', n)
  {
    hide NewestPart, OthersQuiet, RingKnown, Distinct;
  }

  // ---------------------------------------------------------------- a tick

  lemma TickSteps(cfg: Config, s: System, names: seq<Name>, n: Name, to: Option<Mount>, date: Date)
    requires s.mover == Asleep && |s.w.ring| >= cfg.thresh
    requires OldestFirst.Pick(s.w.ring, names, s.w.clock) == Some(n)
    ensures Step(cfg, s, MoverDo(Done)) == s.(mover := Counted)
    ensures Step(cfg, s.(mover := Counted), MoverDo(Listed(names, ""))) == s.(mover := Picked(n))
    ensures Step(cfg, s.(mover := Picked(n)), MoverDo(Seen(to, date))) ==
            s.(mover := if to.Some? then Making(n, to.value, date) else Routed(n, None, date))
  {
    hide OldestFirst.Pick;
  }

  /** A tick gets as far as the move or, with a drive, as making the directory for it. */
  lemma TickPicks(cfg: Config, s: System, names: seq<Name>, n: Name, to: Option<Mount>, date: Date) returns (s': System)
    requires FromStart(cfg, Quiet, s) && s.mover == Asleep && |s.w.ring| >= cfg.thresh
    requires IsListing(names, s.w.ring) && OldestFirst.Pick(s.w.ring, names, s.w.clock) == Some(n)
    requires to.Some? ==> to.value in s.w.mounts
    ensures FromStart(cfg, Quiet, s')
    ensures s' == s.(mover := if to.Some? then Making(n, to.value, date) else Routed(n, None, date))
  {
    hide FromStart, Step, OldestFirst.Pick, IsListing;
    TickSteps(cfg, s, names, n, to, date);
    s' := Then(cfg, Quiet, s, MoverDo(Done));
    s' := Then(cfg, Quiet, s', MoverDo(Listed(names, "")));
    s' := Then(cfg, Quiet, s', MoverDo(Seen(to, date)));
  }

  /** What is left once the picked file has gone to the backlog. */
  function Staged(s: System, n: Name): System
    requires n in s.w.ring
  {
    System(s.w.(ring := s.w.ring - {n}, backlog := s.w.backlog[n := s.w.ring[n]]), Asleep, s.daemon)
  }

  lemma StageSteps(cfg: Config, s: System, n: Name)
    requires s.mover == Routed(n, None, "") && n in s.w.ring
    ensures cfg.sharedDevice ==> Step(cfg, s, MoverDo(Done)) == Staged(s, n)
    ensures !cfg.sharedDevice ==>
              var s' := Step(cfg, s, MoverDo(Wrote(s.w.ring[n].content)));
              && s' == s.(w := s.w.(backlog := s.w.backlog[n := s.w.ring[n]]), mover := Copied(n, None, ""))
              && Step(cfg, s', MoverDo(Done)) == Staged(s, n)
  {
  }

  /** A tick without a drive, up to the call that takes the file from the ring. */
  lemma TickAims(cfg: Config, s: System, names: seq<Name>, n: Name) returns (s': System)
    requires FromStart(cfg, Quiet, s) && s.mover == Asleep && |s.w.ring| >= cfg.thresh
    requires IsListing(names, s.w.ring) && OldestFirst.Pick(s.w.ring, names, s.w.clock) == Some(n) && n in s.w.ring
    ensures FromStart(cfg, Quiet, s') && s'.w.ring == s.w.ring && s'.w.captured == s.w.captured
    ensures Admissible(cfg, s', MoverDo(Done)) && Step(cfg, s', MoverDo(Done)) == Staged(s, n)
  {
    hide FromStart, OldestFirst.Pick, IsListing, Step;
    s' := TickPicks(cfg, s, names, n, None, "");
    StageSteps(cfg, s', n);
    if !cfg.sharedDevice {
      s' := Then(cfg, Quiet, s', MoverDo(Wrote(s.w.ring[n].content)));
    }
  }
}
