/** One program runs while everyone else acts between its system calls: stretches of such calls are runs of the
    transition system. */
module Schedules {
  import opened Files
  import opened Pipeline

  /** Whose calls are being followed. */
  datatype Who = TheDaemon | TheMover

  /** What everyone else does before a system call takes effect, and how the call turns out. */
  datatype Turn = Turn(others: seq<Event>, io: Io)

  function Act(who: Who, o: Io): Event {
    if who.TheDaemon? then DaemonDo(o) else MoverDo(o)
  }

  predicate ByOthers(who: Who, e: Event) {
    if who.TheDaemon? then !e.DaemonDo? && !e.DaemonKilled? else !e.MoverDo? && !e.MoverKilled?
  }

  function Others(who: Who, es: seq<Event>): seq<Event> {
    if es == [] then []
    else
      var e := es[|es| - 1];
      Others(who, es[..|es| - 1]) + if ByOthers(who, e) then [e] else []
  }

  /** The events of calls `i` up to `j`. */
  function Trace(who: Who, env: nat -> Turn, i: nat, j: nat): seq<Event>
    requires i <= j
    decreases j - i
  {
    if i == j then []
    else Trace(who, env, i, j - 1) + Others(who, env(j - 1).others) + [Act(who, env(j - 1).io)]
  }

  function OneCall(cfg: Config, who: Who, turn: Turn, s: System): System {
    Step(cfg, Run(cfg, s, Others(who, turn.others)), Act(who, turn.io))
  }

  function Play(cfg: Config, who: Who, env: nat -> Turn, i: nat, j: nat, s: System): System
    requires i <= j
    decreases j - i
  {
    if i == j then s else OneCall(cfg, who, env(j - 1), Play(cfg, who, env, i, j - 1, s))
  }

  /** Playing a stretch of calls is a run of the transition system. */
  lemma {:induction false} PlayIsRun(cfg: Config, who: Who, env: nat -> Turn, i: nat, j: nat, s: System)
    requires i <= j
    ensures Play(cfg, who, env, i, j, s) == Run(cfg, s, Trace(who, env, i, j))
    decreases j - i
  {
    hide Step, Run;
    if i == j {
      RunNil(cfg, s);
    } else {
      PlayIsRun(cfg, who, env, i, j - 1, s);
      var before, turn := Trace(who, env, i, j - 1), env(j - 1);
      RunAppend(cfg, s, before, Others(who, turn.others));
      RunSnoc(cfg, s, before + Others(who, turn.others), Act(who, turn.io));
    }
  }

  lemma {:induction false} PlayAppend(cfg: Config, who: Who, env: nat -> Turn, i: nat, j: nat, k: nat, s: System)
    requires i <= j <= k
    ensures Play(cfg, who, env, i, k, s) == Play(cfg, who, env, j, k, Play(cfg, who, env, i, j, s))
    decreases k - j
  {
    hide *;
    if j < k {
      PlayAppend(cfg, who, env, i, j, k - 1, s);
      PlayStep(cfg, who, env, i, k, s);
      PlayStep(cfg, who, env, j, k, Play(cfg, who, env, i, j, s));
    } else {
      PlayNone(cfg, who, env, j, Play(cfg, who, env, i, j, s));
    }
  }

  lemma PlayNone(cfg: Config, who: Who, env: nat -> Turn, i: nat, s: System)
    ensures Play(cfg, who, env, i, i, s) == s
  {
  }

  lemma PlayStep(cfg: Config, who: Who, env: nat -> Turn, i: nat, j: nat, s: System)
    requires i < j
    ensures Play(cfg, who, env, i, j, s) == OneCall(cfg, who, env(j - 1), Play(cfg, who, env, i, j - 1, s))
  {
    hide OneCall;
  }

  lemma StepIgnoresDaemon(cfg: Config, s: System, e: Event, d: Daemon)
    requires ByOthers(TheDaemon, e)
    ensures Step(cfg, s.(daemon := d), e) == Step(cfg, s, e).(daemon := d)
  {
    hide MoverStep;
  }

  /** Everyone but the daemon neither sees nor moves its position. */
  lemma {:induction false} OthersIgnoreDaemon(cfg: Config, s: System, es: seq<Event>, d: Daemon)
    ensures Run(cfg, s.(daemon := d), Others(TheDaemon, es)) == Run(cfg, s, Others(TheDaemon, es)).(daemon := d)
  {
    if es != [] {
      hide Step;
      var k := |es| - 1;
      var init := Others(TheDaemon, es[..k]);
      OthersIgnoreDaemon(cfg, s, es[..k], d);
      if ByOthers(TheDaemon, es[k]) {
        RunSnoc(cfg, s, init, es[k]);
        RunSnoc(cfg, s.(daemon := d), init, es[k]);
        StepIgnoresDaemon(cfg, Run(cfg, s, init), es[k], d);
      } else {
        assert Others(TheDaemon, es) == init;
      }
    }
  }

  lemma StepIgnoresMover(cfg: Config, s: System, e: Event, m: Mover)
    requires ByOthers(TheMover, e)
    ensures Step(cfg, s.(mover := m), e) == Step(cfg, s, e).(mover := m)
  {
    hide DaemonStep;
  }

  /** Everyone but the mover neither sees nor moves its position. */
  lemma {:induction false} OthersIgnoreMover(cfg: Config, s: System, es: seq<Event>, m: Mover)
    ensures Run(cfg, s.(mover := m), Others(TheMover, es)) == Run(cfg, s, Others(TheMover, es)).(mover := m)
  {
    if es != [] {
      hide Step;
      var k := |es| - 1;
      var init := Others(TheMover, es[..k]);
      OthersIgnoreMover(cfg, s, es[..k], m);
      if ByOthers(TheMover, es[k]) {
        RunSnoc(cfg, s, init, es[k]);
        RunSnoc(cfg, s.(mover := m), init, es[k]);
        StepIgnoresMover(cfg, Run(cfg, s, init), es[k], m);
      } else {
        assert Others(TheMover, es) == init;
      }
    }
  }

  // ---------------------------------------------------------------- every run is such a stretch

  /** A schedule that follows `turns` and is idle afterwards. */
  function Following(turns: seq<Turn>): nat -> Turn {
    (k: nat) => if k < |turns| then turns[k] else Turn([], Io.Done)
  }

  lemma {:induction false} OthersAll(who: Who, es: seq<Event>)
    requires forall e :: e in es ==> ByOthers(who, e)
    ensures Others(who, es) == es
  {
    if es != [] {
      OthersAll(who, es[..|es| - 1]);
    }
  }

  lemma {:induction false} TraceAgrees(who: Who, a: nat -> Turn, b: nat -> Turn, j: nat)
    requires forall k :: 0 <= k < j ==> a(k) == b(k)
    ensures Trace(who, a, 0, j) == Trace(who, b, 0, j)
  {
    if j > 0 {
      TraceAgrees(who, a, b, j - 1);
    }
  }

  /** Any events of a run in which the daemon is not killed are calls of the daemon with others acting in between, and
      some more events by others. */
  lemma {:induction false} RunIsPlayed(es: seq<Event>) returns (turns: seq<Turn>, rest: seq<Event>)
    requires forall e :: e in es ==> !e.DaemonKilled?
    ensures es == Trace(TheDaemon, Following(turns), 0, |turns|) + rest
    ensures forall e :: e in rest ==> ByOthers(TheDaemon, e)
    ensures es != [] && es[|es| - 1].DaemonDo? ==> rest == []
  {
    if es == [] {
      turns, rest := [], [];
    } else {
      var k := |es| - 1;
      turns, rest := RunIsPlayed(es[..k]);
      var e := es[k];
      assert es == es[..k] + [e];
      if e.DaemonDo? {
        OthersAll(TheDaemon, rest);
        var more := turns + [Turn(rest, e.d)];
        TraceAgrees(TheDaemon, Following(turns), Following(more), |turns|);
        assert Following(more)(|turns|) == Turn(rest, e.d);
        turns, rest := more, [];
      } else {
        rest := rest + [e];
      }
    }
  }
}
