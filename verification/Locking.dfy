/** acquire_lock and release_lock, one system call at a time, with crashes and reused process ids. */
module Locking {
  import opened Files

  type Pid = nat

  /** The lock file. `owner` is None while it is empty or holds no number. */
  datatype LockFile = Absent | Present(ino: nat, owner: Option<Pid>)

  /** The next system call of an instance, or that it is in main_loop. */
  datatype Phase =
    | Exists
    | Read
    | Signal(holder: Pid)
    | Unlink
    | Open
    | Write(ino: nat)
    | InMain

  /** `instances` are the live hot-swap processes and `others` all other live processes. */
  datatype State = State(lock: LockFile, instances: map<Pid, Phase>, others: set<Pid>, inodes: nat)

  datatype Event =
    | Start(pid: Pid)
    | Call(pid: Pid, fails: bool)
    | Exit(pid: Pid)
    | Crash(pid: Pid)
    | OtherStarts(pid: Pid)
    | OtherEnds(pid: Pid)

  predicate Alive(s: State, p: Pid) {
    p in s.instances || p in s.others
  }

  function Dies(s: State, p: Pid): State {
    s.(instances := s.instances - {p})
  }

  function Goes(s: State, p: Pid, next: Phase): State {
    s.(instances := s.instances[p := next])
  }

  /** One system call of acquire_lock. Reading the lock file or signalling its owner may fail, and either failure counts
      as a stale lock. An exception inside the handler is not caught and ends the process. */
  function CallStep(s: State, p: Pid, fails: bool): State
    requires p in s.instances
  {
    match s.instances[p]
    case Exists => Goes(s, p, if s.lock.Absent? then Open else Read)
    case Read =>
      Goes(s, p, if !fails && s.lock.Present? && s.lock.owner.Some? then Signal(s.lock.owner.value) else Unlink)
    case Signal(holder) => if Alive(s, holder) && !fails then Dies(s, p) else Goes(s, p, Unlink)
    case Unlink => if s.lock.Absent? then Dies(s, p) else Goes(s.(lock := Absent), p, Open)
    case Open =>
      if s.lock.Absent? then Goes(s.(lock := Present(s.inodes, None), inodes := s.inodes + 1), p, Write(s.inodes))
      else Goes(s.(lock := Present(s.lock.ino, None)), p, Write(s.lock.ino))
    case Write(ino) =>
      var lock := if s.lock.Present? && s.lock.ino == ino then Present(ino, Some(p)) else s.lock;
      Goes(s.(lock := lock), p, InMain)
    case InMain => s
  }

  function Step(s: State, e: Event): State {
    match e
    case Start(p) => Goes(s, p, Exists)
    case Call(p, fails) => if p in s.instances then CallStep(s, p, fails) else s
    case Exit(p) => Dies(s.(lock := Absent), p)
    case Crash(p) => Dies(s, p)
    case OtherStarts(p) => s.(others := s.others + {p})
    case OtherEnds(p) => s.(others := s.others - {p})
  }

  function Run(s: State, es: seq<Event>): State {
    if es == [] then s else Step(Run(s, es[..|es| - 1]), es[|es| - 1])
  }

  /** `serial`: no instance is started while another is inside acquire_lock. `signalable`: a live instance can
      always be signalled by another. `readable`: a lock file that names a live instance can always be read. */
  datatype Policy = Policy(serial: bool, signalable: bool, readable: bool)

  predicate NamesInstance(s: State) {
    s.lock.Present? && s.lock.owner.Some? && s.lock.owner.value in s.instances
  }

  ghost predicate Admissible(policy: Policy, s: State, e: Event) {
    match e
    case Start(p) => !Alive(s, p) && (policy.serial ==> forall q :: q in s.instances ==> s.instances[q].InMain?)
    case Call(p, fails) =>
      && p in s.instances
      && (policy.signalable && fails && s.instances[p].Signal? ==> s.instances[p].holder !in s.instances)
      && (policy.readable && fails && s.instances[p].Read? ==> !NamesInstance(s))
    case Exit(p) => p in s.instances && s.instances[p].InMain?
    case Crash(p) => p in s.instances
    case OtherStarts(p) => !Alive(s, p)
    case OtherEnds(p) => p in s.others
  }

  ghost predicate AdmissibleRun(policy: Policy, s: State, es: seq<Event>) {
    es != [] ==>
      AdmissibleRun(policy, s, es[..|es| - 1]) && Admissible(policy, Run(s, es[..|es| - 1]), es[|es| - 1])
  }

  /** At most one instance is in main_loop. */
  ghost predicate Exclusive(s: State) {
    forall p, q :: p in s.instances && q in s.instances && s.instances[p].InMain? && s.instances[q].InMain? ==> p == q
  }

  /** No instance yet; the lock file may be stale and any other processes may be live. */
  ghost predicate Boot(s: State) {
    s.instances == map[]
  }

  ghost predicate AlwaysExclusive(policy: Policy) {
    forall s, es :: Boot(s) && AdmissibleRun(policy, s, es) ==> Exclusive(Run(s, es))
  }

  // ---------------------------------------------------------------- with all assumptions

  /** While `h` is in main_loop it owns the lock, and a newcomer has not got past signalling it. */
  ghost predicate Holds(s: State, h: Pid) {
    && s.lock.Present? && s.lock.owner == Some(h)
    && (forall p :: p in s.instances && p != h ==> s.instances[p] in {Exists, Read, Signal(h)})
  }

  ghost predicate Good(s: State) {
    && (forall p, q :: p in s.instances && q in s.instances && !s.instances[p].InMain? && !s.instances[q].InMain? ==> p == q)
    && (forall h :: h in s.instances && s.instances[h].InMain? ==> Holds(s, h))
    && (forall p :: p in s.instances && s.instances[p].Write? ==> s.lock == Present(s.instances[p].ino, None))
  }

  lemma GoodIsExclusive(s: State)
    requires Good(s)
    ensures Exclusive(s)
  {
    forall p, q | p in s.instances && q in s.instances && s.instances[p].InMain? && s.instances[q].InMain?
      ensures p == q
    {
      assert Holds(s, p) && Holds(s, q);
    }
  }

  lemma CallKeeps(policy: Policy, s: State, p: Pid, fails: bool)
    requires policy == Policy(true, true, true) && Good(s) && Admissible(policy, s, Call(p, fails))
    ensures Good(CallStep(s, p, fails))
  {
    var s' := CallStep(s, p, fails);
    forall h | h in s'.instances && s'.instances[h].InMain? ensures Holds(s', h) {
      if h != p {
        assert Holds(s, h);
      }
    }
  }

  lemma StepKeeps(policy: Policy, s: State, e: Event)
    requires policy == Policy(true, true, true) && Good(s) && Admissible(policy, s, e)
    ensures Good(Step(s, e))
  {
    var s' := Step(s, e);
    if e.Call? {
      CallKeeps(policy, s, e.pid, e.fails);
    } else {
      assert e.Exit? ==> Holds(s, e.pid);
      forall h | h in s'.instances && s'.instances[h].InMain? ensures Holds(s', h) {
        assert Holds(s, h);
      }
    }
  }

  lemma {:induction false} RunKeeps(policy: Policy, s: State, es: seq<Event>)
    requires policy == Policy(true, true, true) && Boot(s) && AdmissibleRun(policy, s, es)
    ensures Good(Run(s, es))
  {
    if es != [] {
      RunKeeps(policy, s, es[..|es| - 1]);
      StepKeeps(policy, Run(s, es[..|es| - 1]), es[|es| - 1]);
    }
  }

  // ---------------------------------------------------------------- without one of them

  const EMPTY: State := State(Absent, map[], {}, 0)

  /** Some admissible run from a host without instances or lock file ends here. */
  ghost predicate Reachable(policy: Policy, s: State) {
    exists es :: AdmissibleRun(policy, EMPTY, es) && Run(EMPTY, es) == s
  }

  lemma Begin(policy: Policy)
    ensures Reachable(policy, EMPTY)
  {
    assert AdmissibleRun(policy, EMPTY, []) && Run(EMPTY, []) == EMPTY;
  }

  lemma Then(policy: Policy, s: State, e: Event) returns (s': State)
    requires Reachable(policy, s) && Admissible(policy, s, e)
    ensures s' == Step(s, e) && Reachable(policy, s')
  {
    s' := Step(s, e);
    var es :| AdmissibleRun(policy, EMPTY, es) && Run(EMPTY, es) == s;
    assert (es + [e])[..|es|] == es;
    assert AdmissibleRun(policy, EMPTY, es + [e]) && Run(EMPTY, es + [e]) == s';
  }

  /** Two instances started together both find no lock file. */
  lemma RaceBreaks(policy: Policy) returns (s: State)
    requires !policy.serial
    ensures Reachable(policy, s) && !Exclusive(s)
  {
    hide Reachable;
    Begin(policy);
    s := Then(policy, EMPTY, Start(1));
    s := Then(policy, s, Start(2));
    s := Then(policy, s, Call(1, false));
    s := Then(policy, s, Call(2, false));
    s := Then(policy, s, Call(1, false));
    s := Then(policy, s, Call(1, false));
    s := Then(policy, s, Call(2, false));
    s := Then(policy, s, Call(2, false));
    assert s.instances[1] == InMain && s.instances[2] == InMain;
  }

  /** One instance is in main_loop and a second one has found its lock file. */
  lemma SecondReads(policy: Policy) returns (s: State)
    ensures Reachable(policy, s) && s == State(Present(0, Some(1)), map[1 := InMain, 2 := Read], {}, 1)
  {
    hide Reachable;
    Begin(policy);
    s := Then(policy, EMPTY, Start(1));
    s := Then(policy, s, Call(1, false));
    s := Then(policy, s, Call(1, false));
    s := Then(policy, s, Call(1, false));
    assert s == State(Present(0, Some(1)), map[1 := InMain], {}, 1);
    s := Then(policy, s, Start(2));
    s := Then(policy, s, Call(2, false));
    assert s.instances == map[1 := InMain, 2 := Read];
  }

  /** Once it takes the lock for stale it goes on into main_loop. */
  lemma SecondEnters(policy: Policy, s: State) returns (s': State)
    requires Reachable(policy, s) && s == State(Present(0, Some(1)), map[1 := InMain, 2 := Unlink], {}, 1)
    ensures Reachable(policy, s') && !Exclusive(s')
  {
    hide Reachable;
    s' := Then(policy, s, Call(2, false));
    s' := Then(policy, s', Call(2, false));
    s' := Then(policy, s', Call(2, false));
    assert s'.instances[1] == InMain && s'.instances[2] == InMain;
  }

  /** A live holder that may not be signalled is taken for a stale lock. */
  lemma DenialBreaks(policy: Policy) returns (s: State)
    requires !policy.signalable
    ensures Reachable(policy, s) && !Exclusive(s)
  {
    hide Reachable;
    s := SecondReads(policy);
    s := Then(policy, s, Call(2, false));
    assert s.instances == map[1 := InMain, 2 := Signal(1)];
    s := Then(policy, s, Call(2, true));
    assert s.instances == map[1 := InMain, 2 := Unlink];
    s := SecondEnters(policy, s);
  }

  /** A lock file that cannot be read is taken for a stale lock. */
  lemma UnreadableBreaks(policy: Policy) returns (s: State)
    requires !policy.readable
    ensures Reachable(policy, s) && !Exclusive(s)
  {
    hide Reachable;
    s := SecondReads(policy);
    s := Then(policy, s, Call(2, true));
    assert s.instances == map[1 := InMain, 2 := Unlink];
    s := SecondEnters(policy, s);
  }

  /** Over all runs of starts, exits, crashes that leave a stale lock and reused process ids, at most one
      instance is in main_loop if and only if starts do not overlap, live instances can be signalled and a lock file
      that names one can be read. */
  lemma ExclusiveIff(policy: Policy)
    ensures AlwaysExclusive(policy) <==> policy.serial && policy.signalable && policy.readable
  {
    if policy.serial && policy.signalable && policy.readable {
      forall s, es | Boot(s) && AdmissibleRun(policy, s, es) ensures Exclusive(Run(s, es)) {
        RunKeeps(policy, s, es);
        GoodIsExclusive(Run(s, es));
      }
    } else {
      var s: State;
      if !policy.serial {
        s := RaceBreaks(policy);
      } else if !policy.signalable {
        s := DenialBreaks(policy);
      } else {
        s := UnreadableBreaks(policy);
      }
      var es :| AdmissibleRun(policy, EMPTY, es) && Run(EMPTY, es) == s;
      assert Boot(EMPTY) && !Exclusive(Run(EMPTY, es));
    }
  }

  // ---------------------------------------------------------------- acquire_lock as it is written

  /** Calls of one instance in a row, each failing or not. */
  function Calls(s: State, pid: Pid, fails: seq<bool>): State {
    if fails == [] then s else Step(Calls(s, pid, fails[..|fails| - 1]), Call(pid, fails[|fails| - 1]))
  }

  lemma CallsSnoc(s: State, pid: Pid, fails: seq<bool>, f: bool)
    ensures Calls(s, pid, fails + [f]) == Step(Calls(s, pid, fails), Call(pid, f))
  {
    assert (fails + [f])[..|fails|] == fails;
  }

  lemma CallsThree(s: State, pid: Pid, a: bool, b: bool, c: bool)
    ensures Calls(s, pid, [a, b]) == Step(Step(s, Call(pid, a)), Call(pid, b))
    ensures Calls(s, pid, [a, b, c]) == Step(Step(Step(s, Call(pid, a)), Call(pid, b)), Call(pid, c))
  {
    CallsSnoc(s, pid, [], a);
    CallsSnoc(s, pid, [a], b);
    CallsSnoc(s, pid, [a, b], c);
    assert [] + [a] == [a] && [a] + [b] == [a, b] && [a, b] + [c] == [a, b, c];
  }

  /** An instance that starts without a lock file gets into main_loop in three calls, whatever fails. */
  lemma GetsIn(t: State, q: Pid, a: bool, b: bool, c: bool)
    requires t.lock.Absent? && q in t.instances && t.instances[q].Exists?
    ensures var u := Calls(t, q, [a, b, c]); u.lock == Present(t.inodes, Some(q)) && u.instances == t.instances[q := InMain]
  {
    CallsThree(t, q, a, b, c);
    hide Calls;
    var t1 := Step(t, Call(q, a));
    assert t1 == Goes(t, q, Open);
    var t2 := Step(t1, Call(q, b));
    assert t2.lock == Present(t.inodes, None) && t2.instances == t.instances[q := Write(t.inodes)];
  }

  /** One that has found a lock file which is gone when it comes to unlink it ends within two calls. */
  lemma IsLost(t: State, q: Pid, a: bool, b: bool)
    requires t.lock.Absent? && q in t.instances && (t.instances[q].Read? || t.instances[q].Signal?)
    ensures Calls(t, q, [a, b]).instances == t.instances - {q}
  {
    CallsThree(t, q, a, b, false);
    hide Calls;
    var t1 := Step(t, Call(q, a));
    assert t1 == Goes(t, q, Unlink) || t1 == Dies(t, q);
  }

  /** Over every run, an orderly exit leaves no lock file, and every instance that looks for one from then on gets into
      main_loop; one that had found the lock file before it went is lost. */
  lemma ExitReleases(policy: Policy, s: State, es: seq<Event>, p: Pid, q: Pid, a: bool, b: bool, c: bool)
    requires policy == Policy(true, true, true) && Boot(s) && AdmissibleRun(policy, s, es + [Exit(p)])
    ensures var t := Run(s, es + [Exit(p)]);
            && t.lock.Absent? && p !in t.instances
            && (!Alive(t, q) ==> Calls(Step(t, Start(q)), q, [a, b, c]).instances == t.instances[q := InMain])
            && (q in t.instances ==>
                  if t.instances[q].Exists? then Calls(t, q, [a, b, c]).instances == t.instances[q := InMain]
                  else Calls(t, q, [a, b]).instances == t.instances - {q})
  {
    assert (es + [Exit(p)])[..|es|] == es;
    var before, t := Run(s, es), Run(s, es + [Exit(p)]);
    RunKeeps(policy, s, es);
    assert Holds(before, p);
    hide Run, Calls, AdmissibleRun;
    if !Alive(t, q) {
      GetsIn(Step(t, Start(q)), q, a, b, c);
      assert t.instances[q := Exists][q := InMain] == t.instances[q := InMain];
    } else if q in t.instances && t.instances[q].Exists? {
      GetsIn(t, q, a, b, c);
    } else if q in t.instances {
      IsLost(t, q, a, b);
    }
  }

  /** The host while only one instance makes calls. */
  class Host {
    var s: State

    constructor (s: State)
      ensures this.s == s
    {
      this.s := s;
    }

    /** The calls of an instance so far have led here from `start`. */
    ghost predicate Called(start: State, pid: Pid, fails: seq<bool>)
      reads this
    {
      s == Calls(start, pid, fails)
    }

    /** Looks at a lock file that is there and removes it if it is stale. */
    method RemoveStale(pid: Pid, unreadable: bool, denied: bool, ghost start: State, ghost before: seq<bool>)
      returns (removed: bool, ghost fails: seq<bool>)
      requires pid in s.instances && s.instances[pid].Read? && s.lock.Present? && Called(start, pid, before)
      modifies this
      ensures Called(start, pid, fails) && before <= fails
      ensures forall k :: |before| <= k < |fails| && fails[k] ==> unreadable || denied
      ensures removed <==>
                unreadable || old(s).lock.owner.None? || !Alive(old(s), old(s).lock.owner.value) || denied
      ensures removed ==> s == Goes(old(s), pid, Open).(lock := Absent)
      ensures !removed ==> s == Dies(old(s), pid)
    {
      var owner := s.lock.owner;
      CallsSnoc(start, pid, before, unreadable);
      fails := before + [unreadable];
      s := Goes(s, pid, if !unreadable && owner.Some? then Signal(owner.value) else Unlink);
      if !unreadable && owner.Some? {
        CallsSnoc(start, pid, fails, denied);
        fails := fails + [denied];
        if Alive(s, owner.value) && !denied {
          s := Dies(s, pid);
          return false, fails;
        }
        s := Goes(s, pid, Unlink);
      }
      CallsSnoc(start, pid, fails, false);
      fails := fails + [false];
      s := Goes(s.(lock := Absent), pid, Open);
      return true, fails;
    }

    /** acquire_lock in one go. It succeeds exactly when there is no lock file or the one there is stale: unreadable, empty,
        or naming a process that is not live or may not be signalled. */
    method AcquireLock(pid: Pid, unreadable: bool, denied: bool) returns (acquired: bool, ghost fails: seq<bool>)
      requires pid in s.instances && s.instances[pid].Exists?
      modifies this
      ensures Called(old(s), pid, fails) && forall k :: 0 <= k < |fails| && fails[k] ==> unreadable || denied
      ensures acquired <==>
                var lock := old(s).lock;
                lock.Absent? || unreadable || lock.owner.None? || !Alive(old(s), lock.owner.value) || denied
      ensures acquired ==> s.lock.Present? && s.lock.owner == Some(pid) && s.instances == old(s).instances[pid := InMain]
      ensures !acquired ==> s == Dies(old(s), pid)
    {
      ghost var start := s;
      assert Called(start, pid, []);
      CallsSnoc(start, pid, [], false);
      fails := [] + [false];
      if s.lock.Present? {
        s := Goes(s, pid, Read);
        acquired, fails := RemoveStale(pid, unreadable, denied, start, fails);
        if !acquired {
          return;
        }
      } else {
        s := Goes(s, pid, Open);
      }
      fails := WritePid(pid, start, fails);
      acquired := true;
    }

    method WritePid(pid: Pid, ghost start: State, ghost before: seq<bool>) returns (ghost fails: seq<bool>)
      requires pid in s.instances && s.instances[pid].Open? && s.lock.Absent? && Called(start, pid, before)
      modifies this
      ensures fails == before + [false, false] && Called(start, pid, fails)
      ensures s.lock == Present(old(s).inodes, Some(pid)) && s.instances == old(s).instances[pid := InMain]
    {
      CallsSnoc(start, pid, before, false);
      CallsSnoc(start, pid, before + [false], false);
      s := Goes(s.(lock := Present(s.inodes, None), inodes := s.inodes + 1), pid, Write(s.inodes));
      s := Goes(s.(lock := Present(s.lock.ino, Some(pid))), pid, InMain);
      fails := before + [false] + [false];
    }
  }
}
