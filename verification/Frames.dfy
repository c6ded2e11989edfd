/** What a step of the mover or of the daemon leaves alone. */
module Frames {
  import opened Hashing
  import opened Names
  import opened Files
  import opened Pipeline

  /** The capture history, the clock and the mount table. */
  ghost predicate SameHistory(w: World, w': World) {
    && w'.original == w.original && w'.captured == w.captured && w'.active == w.active
    && w'.clock == w.clock && w'.mounts == w.mounts && w'.rotated == w.rotated
  }

  // ---------------------------------------------------------------- mover

  lemma MoverMoveKeepsHistory(cfg: Config, w: World, n: Name, to: Option<Mount>, date: Date, o: Io)
    ensures SameHistory(w, MoverMove(cfg, w, n, to, date, o).0)
  {
  }

  lemma MoverKeepsHistory(cfg: Config, w: World, m: Mover, o: Io)
    ensures SameHistory(w, MoverStep(cfg, w, m, o).0)
  {
    hide MoverMove;
    if m.Routed? {
      MoverMoveKeepsHistory(cfg, w, m.target, m.to, m.date, o);
    }
  }

  /** The mover takes nothing but its target from the ring, and then it is done. */
  lemma MoverTakesOnlyTarget(cfg: Config, w: World, m: Mover, o: Io)
    ensures var (w', m') := MoverStep(cfg, w, m, o);
            w'.ring == w.ring ||
            (!m.Asleep? && !m.Counted? && m.target in w.ring.Keys && w'.ring == w.ring - {m.target} && m'.Asleep?)
  {
    if m.Copied? && m.target !in w.ring {
      assert w.ring - {m.target} == w.ring;
    }
  }

  /** The mover puts nothing but its target in the backlog. */
  lemma MoverAddsOnlyTarget(cfg: Config, w: World, m: Mover, o: Io)
    ensures var w' := MoverStep(cfg, w, m, o).0;
            w'.backlog == w.backlog || (m.Routed? && m.target in w.ring && w'.backlog.Keys == w.backlog.Keys + {m.target})
  {
    hide MoverMove;
    if m.Routed? {
      MoverMoveAddsOnly(cfg, w, m.target, m.to, m.date, o);
    }
  }

  lemma MoverMoveAddsOnly(cfg: Config, w: World, n: Name, to: Option<Mount>, date: Date, o: Io)
    ensures var w' := MoverMove(cfg, w, n, to, date, o).0;
            w'.backlog == w.backlog || (n in w.ring && w'.backlog.Keys == w.backlog.Keys + {n})
  {
    hide Resolve, SameDevice;
  }

  // ---------------------------------------------------------------- daemon

  lemma TransferKeepsHistory(cfg: Config, w: World, job: Job, t: Transfer, o: Io)
    ensures var w' := TransferStep(cfg, w, job, t, o).0;
            SameHistory(w, w') && w'.ring == w.ring && w'.backlog.Keys <= w.backlog.Keys
  {
  }

  lemma DaemonKeepsHistory(cfg: Config, w: World, d: Daemon, o: Io)
    ensures var w' := DaemonStep(cfg, w, d, o).0;
            SameHistory(w, w') && w'.ring == w.ring && w'.backlog.Keys <= w.backlog.Keys
  {
    hide TransferStep;
    if d.Moving? {
      TransferKeepsHistory(cfg, w, JobOf(d.b), d.t, o);
    }
  }
}
