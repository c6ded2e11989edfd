/** The promises of the pipeline over whole runs. */
module Guarantees {
  import opened Hashing
  import opened Names
  import opened Files
  import opened Pipeline
  import opened Frames
  import opened Order
  import opened Safety
  import OldestFirst

  // ---------------------------------------------------------------- where runs start

  /** A sensor before its first capture; volumes and their contents are arbitrary. */
  ghost predicate FreshSensor(s: System) {
    && s.w.ring == map[] && s.w.backlog == map[] && s.w.captured == [] && s.w.original == map[]
    && s.w.active == None && s.w.rotated <= s.w.clock
    && s.mover == Asleep && s.daemon == Idle(false)
  }

  /** One such sensor, with nothing attached. */
  const START: System :=
    System(World(0, map[], map[], map[], map[], None, [], map[], -QUIET), Asleep, Idle(false))

  lemma FreshSensorIsGood(cfg: Config, s: System)
    requires FreshSensor(s)
    ensures Inv(cfg, s) && Spaced(s.w)
  {
  }

  // ---------------------------------------------------------------- no capture is lost

  /** The content is still in the ring, in the backlog, on some volume or underneath a mount point. */
  ghost predicate Held(w: World, n: Name, c: Content) {
    || (n in w.ring && w.ring[n].content == c)
    || (n in w.backlog && w.backlog[n].content == c)
    || Stored(w.stores, n, c)
  }

  lemma StepKept(w: World, w': World, n: Name)
    requires OriginalsKept(w, w') && n in w.original
    ensures n in w'.original && w'.original[n] == w.original[n]
  {
  }

  lemma {:induction false} OriginalsFixed(cfg: Config, s: System, es: seq<Event>, k: nat, n: Name)
    requires Sane(cfg) && Inv(cfg, s) && AdmissibleRun(cfg, s, es) && k <= |es|
    requires n in Run(cfg, s, es[..k]).w.original
    ensures n in Run(cfg, s, es).w.original
    ensures Run(cfg, s, es).w.original[n] == Run(cfg, s, es[..k]).w.original[n]
    decreases |es|
  {
    hide *;
    if k < |es| {
      SplitRun(cfg, s, es);
      var last := |es| - 1;
      assert es[..last][..k] == es[..k];
      OriginalsFixed(cfg, s, es[..last], k, n);
      RunKeeps(cfg, s, es[..last]);
      OriginalsFixedStep(cfg, Run(cfg, s, es[..last]), es[last]);
      StepKept(Run(cfg, s, es[..last]).w, Run(cfg, s, es).w, n);
    } else {
      assert es[..k] == es;
    }
  }

  /** No capture is ever lost: whatever a capture held when it was closed, at any point of a run, is held at
      the end of the run, over every interleaving of writes, rotations, mover and daemon system calls,
      failures, corrupt copies, killed processes and volume swaps, as long as no file is deleted on the strength of
      an inexact copy that nobody verified. */
  lemma NoCaptureLost(cfg: Config, s: System, es: seq<Event>, k: nat, n: Name)
    requires Sane(cfg) && Inv(cfg, s) && AdmissibleRun(cfg, s, es) && k <= |es|
    requires n in Run(cfg, s, es[..k]).w.original
    ensures Held(Run(cfg, s, es).w, n, Run(cfg, s, es[..k]).w.original[n])
  {
    RunKeeps(cfg, s, es);
    OriginalsFixed(cfg, s, es, k, n);
    var w := Run(cfg, s, es).w;
    assert KeptOne(w.ring, w.backlog, w.stores, n, w.original[n]);
  }

  // ---------------------------------------------------------------- the file being written

  /** Neither program ever touches the file tcpdump is writing: it stays in the ring as it is, it is never
      the mover's target and never in the backlog. */
  lemma ActiveNeverTouched(cfg: Config, s: System, es: seq<Event>, e: Event, a: Name)
    requires Cautious(cfg) && OrderInv(cfg, s) && AdmissibleRun(cfg, s, es) && (e.MoverDo? || e.DaemonDo?)
    requires Admissible(cfg, Run(cfg, s, es), e) && Run(cfg, s, es).w.active == Some(a)
    ensures var before, after := Run(cfg, s, es), Run(cfg, s, es + [e]);
            && after.w.active == Some(a)
            && a in before.w.ring && a in after.w.ring && after.w.ring[a] == before.w.ring[a]
            && a !in after.w.backlog
            && !(!after.mover.Asleep? && !after.mover.Counted? && after.mover.target == a)
  {
    RunKeepsOrder(cfg, s, es);
    RunSnoc(cfg, s, es, e);
    var before := Run(cfg, s, es);
    StepKeepsOrder(cfg, before, e);
    hide Run, Admissible, AdmissibleRun, NewestPart, StrictPart, OthersQuiet, Distinct, RingKnown;
    if e.MoverDo? {
      MoverKeepsHistory(cfg, before.w, before.mover, e.m);
      MoverTakesOnlyTarget(cfg, before.w, before.mover, e.m);
      hide MoverStep;
    } else {
      DaemonKeepsHistory(cfg, before.w, before.daemon, e.d);
      hide DaemonStep;
    }
  }

  // ---------------------------------------------------------------- first in, first out

  /** The captures waiting in the ring, oldest first. */
  function Waiting(captured: seq<Name>, ring: Directory): seq<Name> {
    if captured == [] then []
    else if captured[0] in ring then [captured[0]] + Waiting(captured[1..], ring)
    else Waiting(captured[1..], ring)
  }

  function Queue(w: World): seq<Name> {
    Waiting(w.captured, w.ring)
  }

  /** The two captures at the front of the queue have the same mtime. */
  ghost predicate FrontTied(w: World) {
    |Queue(w)| >= 2 && Mtime(w.ring, Queue(w)[0]) == Mtime(w.ring, Queue(w)[1])
  }

  /** A step of the queue: a capture joins at the back, the mover takes the one at the front, and nothing else
      happens to it. Only from a front that is tied can the mover take the second one instead. */
  ghost predicate QueueStep(q: seq<Name>, q': seq<Name>, e: Event, tied: bool) {
    if e.NewCapture? then q' == q + [e.name]
    else
      || q' == q
      || (e.MoverDo? && q != [] && q' == q[1..])
      || (e.MoverDo? && |q| >= 2 && tied && q' == [q[0]] + q[2..])
  }

  /** What has left the ring is a prefix of the capture order, of which the last but one may have stayed behind. */
  ghost predicate LeftUpTo(captured: seq<Name>, ring: Directory, k: nat) {
    && k <= |captured| && (forall i :: k <= i < |captured| ==> captured[i] in ring)
    && (forall i :: 0 <= i < k && i != k - 2 ==> captured[i] !in ring)
  }

  /** And it is exactly a prefix. */
  ghost predicate SplitAt(captured: seq<Name>, ring: Directory, k: nat) {
    k <= |captured| && forall i :: 0 <= i < |captured| ==> (captured[i] in ring <==> k <= i)
  }

  lemma LeftIsPrefix(captured: seq<Name>, ring: Directory) returns (k: nat)
    requires NewestPart(captured, ring)
    ensures LeftUpTo(captured, ring, k) && (StrictPart(captured, ring) ==> SplitAt(captured, ring, k))
  {
    k := |captured|;
    while k > 0 && captured[k - 1] in ring
      invariant k <= |captured| && forall i :: k <= i < |captured| ==> captured[i] in ring
    {
      k := k - 1;
    }
  }

  lemma {:induction false} WaitingIn(captured: seq<Name>, ring: Directory, y: nat) returns (j: nat)
    requires y < |Waiting(captured, ring)|
    ensures y <= j < |captured| && captured[j] == Waiting(captured, ring)[y] && captured[j] in ring
  {
    if captured[0] in ring && y == 0 {
      j := 0;
    } else {
      j := WaitingIn(captured[1..], ring, if captured[0] in ring then y - 1 else y);
      j := j + 1;
    }
  }

  /** Those that wait do so in capture order. */
  lemma {:induction false} WaitingOrder(captured: seq<Name>, ring: Directory, y: nat) returns (i: nat, j: nat)
    requires 0 < y < |Waiting(captured, ring)|
    ensures i + y <= j < |captured| && captured[i] in ring && captured[j] in ring
    ensures captured[i] == Waiting(captured, ring)[0] && captured[j] == Waiting(captured, ring)[y]
  {
    if captured[0] in ring {
      i := 0;
      j := WaitingIn(captured[1..], ring, y - 1);
      j := j + 1;
    } else {
      i, j := WaitingOrder(captured[1..], ring, y);
      i, j := i + 1, j + 1;
    }
  }

  lemma {:induction false} WaitingAll(captured: seq<Name>, ring: Directory)
    requires forall i :: 0 <= i < |captured| ==> captured[i] in ring
    ensures Waiting(captured, ring) == captured
  {
    if captured != [] {
      WaitingAll(captured[1..], ring);
    }
  }

  lemma {:induction false} WaitingSuffix(captured: seq<Name>, ring: Directory, k: nat)
    requires SplitAt(captured, ring, k)
    ensures Waiting(captured, ring) == captured[k..]
  {
    if k == 0 {
      WaitingAll(captured, ring);
    } else {
      forall i | 0 <= i < |captured[1..]| ensures captured[1..][i] in ring <==> k - 1 <= i {
        assert captured[i + 1] in ring <==> k <= i + 1;
      }
      WaitingSuffix(captured[1..], ring, k - 1);
      assert captured[1..][k - 1..] == captured[k..];
    }
  }

  lemma {:induction false} WaitingSame(captured: seq<Name>, ring: Directory, ring': Directory)
    requires forall n :: n in captured ==> (n in ring <==> n in ring')
    ensures Waiting(captured, ring') == Waiting(captured, ring)
  {
    if captured != [] {
      assert captured[0] in captured && forall n :: n in captured[1..] ==> n in captured;
      WaitingSame(captured[1..], ring, ring');
    }
  }

  lemma {:induction false} WaitingSnoc(captured: seq<Name>, ring: Directory, n: Name, f: File)
    requires n !in captured
    ensures Waiting(captured + [n], ring[n := f]) == Waiting(captured, ring) + [n]
  {
    if captured != [] {
      assert (captured + [n])[1..] == captured[1..] + [n];
      WaitingSnoc(captured[1..], ring, n, f);
    }
  }

  /** Taking a file from the ring takes it from the queue and leaves the others in order. */
  lemma {:induction false} WaitingWithout(captured: seq<Name>, ring: Directory, n: Name) returns (m: nat)
    requires Distinct(captured) && n in captured && n in ring
    ensures var q := Waiting(captured, ring);
            m < |q| && q[m] == n && Waiting(captured, ring - {n}) == q[..m] + q[m + 1..]
  {
    var rest := captured[1..];
    if captured[0] == n {
      m := 0;
      assert n !in rest;
      WaitingSame(rest, ring, ring - {n});
    } else {
      assert n in rest;
      m := WaitingWithout(rest, ring, n);
      if captured[0] in ring {
        var q := Waiting(rest, ring);
        m := m + 1;
        assert ([captured[0]] + q)[..m] + ([captured[0]] + q)[m + 1..] == [captured[0]] + (q[..m - 1] + q[m..]);
      }
    }
  }

  lemma NewCaptureJoins(cfg: Config, w: World, n: Name)
    requires FreshCapture(cfg, w, n)
    ensures Queue(Rotate(w, n)) == Queue(w) + [n]
  {
    WaitingSnoc(w.captured, w.ring, n, File([], w.clock));
  }

  /** A file of least mtime is at the front of the queue, or second to one that ties with it. */
  lemma OldestIsInFront(w: World, n: Name, m: nat)
    requires Ordered(w) && OldestFirst.Oldest(w.ring, n) && m < |Queue(w)| && Queue(w)[m] == n
    ensures m == 0 || (m == 1 && FrontTied(w))
    ensures StrictPart(w.captured, w.ring) ==> m == 0
  {
    if m > 0 {
      var i, j := WaitingOrder(w.captured, w.ring, m);
      hide Waiting, OthersQuiet, RingKnown, Distinct;
      assert w.ring[n].mtime <= w.ring[w.captured[i]].mtime;
    }
  }

  /** Removing a file of least mtime removes the head of the queue, or the one behind it if the two are tied. */
  lemma OldestLeaves(w: World, w': World, n: Name)
    requires Ordered(w) && OldestFirst.Oldest(w.ring, n)
    requires w'.captured == w.captured && w'.ring == w.ring - {n}
    ensures Queue(w) != [] && n in Queue(w)[..if FrontTied(w) then 2 else 1]
    ensures var q, q' := Queue(w), Queue(w');
            (n == q[0] && q' == q[1..]) || (FrontTied(w) && n == q[1] && q' == [q[0]] + q[2..])
    ensures StrictPart(w.captured, w.ring) ==> n == Queue(w)[0] && Queue(w') == Queue(w)[1..]
  {
    var m := WaitingWithout(w.captured, w.ring, n);
    OldestIsInFront(w, n, m);
    hide Waiting, Ordered, StrictPart, OldestFirst.Oldest, Mtime;
    WithoutFront(Queue(w), m);
  }

  lemma WithoutFront(q: seq<Name>, m: nat)
    requires m <= 1 && m < |q|
    ensures q[..m] + q[m + 1..] == if m == 0 then q[1..] else [q[0]] + q[2..]
    ensures m == 0 ==> q[0] in q[..1]
    ensures |q| >= 2 ==> q[m] in q[..2]
  {
    if m == 1 {
      assert q[..1] == [q[0]];
    }
  }

  lemma SameRingSameQueue(w: World, w': World)
    requires w'.captured == w.captured && w'.ring.Keys == w.ring.Keys
    ensures Queue(w') == Queue(w)
  {
    WaitingSame(w.captured, w.ring, w'.ring);
  }

  lemma StepIsQueueStep(cfg: Config, s: System, e: Event)
    requires OrderInv(cfg, s) && Admissible(cfg, s, e)
    ensures QueueStep(Queue(s.w), Queue(Step(cfg, s, e).w), e, cfg.ties && FrontTied(s.w))
  {
    hide Queue, Ordered;
    var w, w' := s.w, Step(cfg, s, e).w;
    match e
    case NewCapture(n) => NewCaptureJoins(cfg, w, n);
    case MoverDo(o) =>
      MoverKeepsHistory(cfg, w, s.mover, o);
      MoverTakesOnlyTarget(cfg, w, s.mover, o);
      hide MoverStep, StrictPart;
      if w'.ring == w.ring {
        SameRingSameQueue(w, w');
      } else {
        OldestLeaves(w, w', s.mover.target);
      }
    case DaemonDo(o) =>
      DaemonKeepsHistory(cfg, w, s.daemon, o);
      SameRingSameQueue(w, w');
    case _ => SameRingSameQueue(w, w');
  }

  lemma RunIsQueueStep(cfg: Config, s: System, es: seq<Event>, k: nat)
    requires Cautious(cfg) && OrderInv(cfg, s) && AdmissibleRun(cfg, s, es) && k < |es|
    ensures var w, w' := Run(cfg, s, es[..k]).w, Run(cfg, s, es[..k + 1]).w;
            QueueStep(Queue(w), Queue(w'), es[k], cfg.ties && FrontTied(w))
  {
    hide OrderInv, QueueStep, Queue, Admissible, Step, FrontTied;
    AdmissiblePrefix(cfg, s, es, k);
    RunKeepsOrder(cfg, s, es[..k]);
    StepIsQueueStep(cfg, Run(cfg, s, es[..k]), es[k]);
    assert es[..k + 1] == es[..k] + [es[k]];
    RunSnoc(cfg, s, es[..k], es[k]);
  }

  /** The mover refines a queue: at every point of every run the next event is a step of the queue, and what has left
      the ring is a prefix of the capture order, but for one capture that may be a place late. Unless the clock is
      coarse the queue is first in, first out and what has left is exactly a prefix. */
  lemma MoverIsFifo(cfg: Config, s: System, es: seq<Event>, k: nat) returns (gone: nat)
    requires Cautious(cfg) && OrderInv(cfg, s) && AdmissibleRun(cfg, s, es) && k < |es|
    ensures var w, w' := Run(cfg, s, es[..k]).w, Run(cfg, s, es[..k + 1]).w;
            && QueueStep(Queue(w), Queue(w'), es[k], cfg.ties && FrontTied(w))
            && LeftUpTo(w.captured, w.ring, gone)
            && (!cfg.ties ==> SplitAt(w.captured, w.ring, gone) && Queue(w) == w.captured[gone..])
  {
    RunIsQueueStep(cfg, s, es, k);
    AdmissiblePrefix(cfg, s, es, k);
    RunKeepsOrder(cfg, s, es[..k]);
    hide Run, QueueStep, StrictPart, MoverOk, Waiting, FrontTied, LeftUpTo, SplitAt;
    var w := Run(cfg, s, es[..k]).w;
    gone := LeftIsPrefix(w.captured, w.ring);
    if !cfg.ties {
      WaitingSuffix(w.captured, w.ring, gone);
    }
  }

  // ---------------------------------------------------------------- a tick that finds the threshold met has work

  /** Rotations at least QUIET_SECS apart: every capture but the newest two went quiet that long ago. */
  ghost predicate SpacedRing(captured: seq<Name>, ring: Directory, rotated: int) {
    && (forall i :: 0 <= i < |captured| - 2 && captured[i] in ring ==> ring[captured[i]].mtime + QUIET <= rotated)
    && (|captured| >= 2 && captured[|captured| - 2] in ring ==> ring[captured[|captured| - 2]].mtime <= rotated)
  }

  ghost predicate Spaced(w: World) {
    w.rotated <= w.clock && SpacedRing(w.captured, w.ring, w.rotated)
  }

  ghost predicate SpacedEvent(s: System, e: Event) {
    e.NewCapture? ==> s.w.clock >= s.w.rotated + QUIET
  }

  ghost predicate SpacedRun(cfg: Config, s: System, es: seq<Event>) {
    es != [] ==> SpacedRun(cfg, s, es[..|es| - 1]) && SpacedEvent(Run(cfg, s, es[..|es| - 1]), es[|es| - 1])
  }

  lemma SpacedSplit(cfg: Config, s: System, es: seq<Event>)
    requires SpacedRun(cfg, s, es) && es != []
    ensures SpacedRun(cfg, s, es[..|es| - 1]) && SpacedEvent(Run(cfg, s, es[..|es| - 1]), es[|es| - 1])
  {
  }

  lemma SpacedSnoc(c: seq<Name>, ring: Directory, rotated: int, n: Name, f: File, now: int)
    requires SpacedRing(c, ring, rotated) && n !in c && now >= rotated + QUIET
    requires forall x :: x in ring ==> ring[x].mtime <= now
    ensures SpacedRing(c + [n], ring[n := f], now)
  {
    var c', ring' := c + [n], ring[n := f];
    forall i | 0 <= i < |c| ensures c'[i] == c[i] && (c[i] in ring' ==> c[i] in ring && ring'[c[i]] == ring[c[i]]) {
      assert c[i] in c;
    }
  }

  lemma RotateSpaced(w: World, n: Name)
    requires Ordered(w) && Spaced(w) && n !in w.captured && w.clock >= w.rotated + QUIET
    ensures Spaced(Rotate(w, n))
  {
    hide NewestPart, Distinct, OthersQuiet, BacklogClosed;
    SpacedSnoc(w.captured, w.ring, w.rotated, n, File([], w.clock), w.clock);
  }

  lemma WriteSpaced(w: World, data: Content)
    requires Ordered(w) && Spaced(w)
    ensures Spaced(Write(w, data))
  {
    hide NewestPart;
    var w' := Write(w, data);
    if w.active.Some? {
      assert forall i :: 0 <= i < |w.captured| - 1 ==> w.captured[i] != w.active.value;
    }
  }

  lemma StepSpaced(cfg: Config, s: System, e: Event)
    requires OrderInv(cfg, s) && Admissible(cfg, s, e) && Spaced(s.w) && SpacedEvent(s, e)
    ensures Spaced(Step(cfg, s, e).w)
  {
    hide Ordered, StrictPart, MoverOk;
    match e
    case Packets(data) => WriteSpaced(s.w, data);
    case NewCapture(n) => RotateSpaced(s.w, n);
    case MoverDo(o) =>
      MoverKeepsHistory(cfg, s.w, s.mover, o);
      MoverTakesOnlyTarget(cfg, s.w, s.mover, o);
    case DaemonDo(o) => DaemonKeepsHistory(cfg, s.w, s.daemon, o);
    case _ =>
  }

  lemma {:induction false} RunSpaced(cfg: Config, s: System, es: seq<Event>)
    requires Cautious(cfg) && OrderInv(cfg, s) && Spaced(s.w) && AdmissibleRun(cfg, s, es) && SpacedRun(cfg, s, es)
    ensures Spaced(Run(cfg, s, es).w)
  {
    hide *;
    if es == [] {
      RunNil(cfg, s);
    } else {
      SplitRun(cfg, s, es);
      SpacedSplit(cfg, s, es);
      var k := |es| - 1;
      RunSpaced(cfg, s, es[..k]);
      RunKeepsOrder(cfg, s, es[..k]);
      StepSpaced(cfg, Run(cfg, s, es[..k]), es[k]);
    }
  }

  /** Three files in the ring, and one of them is neither of the two newest captures. */
  lemma ThirdFileIsClosed(w: World) returns (x: Name)
    requires Ordered(w) && Spaced(w) && |w.ring| >= 3
    ensures OldestFirst.Closed(w.ring, x, w.clock)
  {
    hide NewestPart, OthersQuiet, Distinct, BacklogClosed;
    var c := w.captured;
    x := OneMore(w.ring, if |c| >= 2 then {c[|c| - 2], c[|c| - 1]} else if |c| == 1 then {c[0]} else {});
    var i :| 0 <= i < |c| && c[i] == x;
    assert i < |c| - 2;
  }

  /** With a threshold of at least three and rotations at least QUIET_SECS apart, a mover that has found the
      threshold met always picks a file: the "no closed file to move" exit is never taken. */
  lemma TickAlwaysHasWork(cfg: Config, s: System, es: seq<Event>, names: seq<Name>)
    requires cfg.thresh >= 3 && OrderInv(cfg, s) && Spaced(s.w)
    requires AdmissibleRun(cfg, s, es) && SpacedRun(cfg, s, es)
    requires Run(cfg, s, es).mover.Counted? && IsListing(names, Run(cfg, s, es).w.ring)
    ensures var w := Run(cfg, s, es).w; OldestFirst.Pick(w.ring, names, w.clock).Some?
  {
    RunKeepsOrder(cfg, s, es);
    RunSpaced(cfg, s, es);
    hide Run, AdmissibleRun, SpacedRun, Spaced, Ordered, StrictPart;
    var w := Run(cfg, s, es).w;
    var x := ThirdFileIsClosed(w);
    OldestFirst.PickIsOldest(w.ring, names, w.clock);
  }
}
