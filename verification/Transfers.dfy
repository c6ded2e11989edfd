/** What each outcome of transfer_file means for the file it was given. */
module Transfers {
  import opened Hashing
  import opened Names
  import opened Files
  import opened Pipeline
  import opened Order
  import opened Safety
  import opened Manifests

  /** A failed attempt has left the original in the backlog; any other outcome has put its content in store. */
  ghost predicate Justified(cfg: Config, w: World, n: Name, t: Transfer) {
    n in w.original &&
    if t.Failed? then n in w.backlog && w.backlog[n].content == w.original[n]
    else Evacuated(w, n) && Stored(w.stores, n, w.original[n]) && (t.Verified? ==> t.sha == cfg.sha(w.original[n]))
  }

  lemma ReturnedIsJustified(cfg: Config, w: World, n: Name, t: Transfer)
    requires TransferInv(cfg, w, n, t) && Returned(t)
    ensures Justified(cfg, w, n, t)
  {
    if t.Failed? {
      BacklogIsClosed(w, n);
    } else {
      hide Ordered, Stored;
      assert KeptOne(w.ring, w.backlog, w.stores, n, w.original[n]);
    }
  }

  /** Over every run: when transfer_file returns, whatever else happened meanwhile, a success or a failure after
      the rename means that the source is gone and its content is stored, and the digest of a verified transfer
      is that of the content; any other failure leaves the original in the backlog. */
  lemma DeletionIsJustified(cfg: Config, s: System, es: seq<Event>, b: Batch, t: Transfer)
    requires Sane(cfg) && Inv(cfg, s) && AdmissibleRun(cfg, s, es)
    requires Run(cfg, s, es).daemon == Moving(b, t) && Returned(t)
    ensures b.next < |b.listing| && Justified(cfg, Run(cfg, s, es).w, b.listing[b.next], t)
  {
    RunKeeps(cfg, s, es);
    hide Run, AdmissibleRun, Ordered, StrictPart, Kept, MoverOk, CopyOk, TransferOk, Justified, Pending;
    ReturnedIsJustified(cfg, Run(cfg, s, es).w, b.listing[b.next], t);
  }

  /** If in addition no volume was swapped at the mount point of the batch, a success, or a failure after the rename,
      means that the destination holds the original content, and the digest of a success is the digest of it. */
  lemma SuccessIsAtDestination(cfg: Config, s: System, es: seq<Event>, b: Batch, t: Transfer)
    requires Sane(cfg) && Inv(cfg, s) && Truthful(cfg, s) && AdmissibleRun(cfg, s, es) && SteadyRun(cfg, s, es)
    requires Run(cfg, s, es).daemon == Moving(b, t) && Returned(t) && !t.Failed?
    ensures b.next < |b.listing| && b.listing[b.next] in Run(cfg, s, es).w.original
    ensures var w, n := Run(cfg, s, es).w, b.listing[b.next];
            && AtMount(w, b.mount, Path(b.date, n), w.original[n])
            && (t.Renamed? || t.Verified? ==> t.sha == cfg.sha(w.original[n]))
            && (t.Verified? <==> b.mount in w.mounts || !cfg.bareLocal)
  {
    DeletionIsJustified(cfg, s, es, b, t);
    ManifestsStayTrue(cfg, s, es);
    hide Run, Inv;
  }

  /** What a step of the daemon does to one file of one place and to no other. */
  ghost predicate OnlyRemoves(stores: map<Place, Store>, stores': map<Place, Store>, p: Place, path: Path) {
    && (forall c: Content :: !At(stores', p, path, c))
    && (forall q: Place, x: Path, c: Content :: q != p || x != path ==> (At(stores', q, x, c) <==> At(stores, q, x, c)))
  }

  lemma RemoveRemoves(w: World, p: Place, path: Path)
    ensures OnlyRemoves(w.stores, Remove(w, p, path).stores, p, path)
  {
  }

  lemma UnlinkCopyRemoves(cfg: Config, s: System, b: Batch)
    requires s.daemon == Moving(b, UnlinkCopy) && b.next < |b.listing|
    ensures var p, path := Resolve(s.w, b.mount), Path(b.date, b.listing[b.next]);
            OnlyRemoves(s.w.stores, Step(cfg, s, DaemonDo(Done)).w.stores, p, path)
  {
    RemoveRemoves(s.w, Resolve(s.w, b.mount), Path(b.date, b.listing[b.next]));
    hide OnlyRemoves, Remove;
  }

  /** Over every run without a swap under the batch: a transfer that is about to unlink its copy has a copy at the
      destination whose digest is not that of the source, and when the unlink succeeds that file is gone, the source is
      still there, and no other file of any place has changed. */
  lemma BadCopyIsRemoved(cfg: Config, s: System, es: seq<Event>, b: Batch)
    requires Sane(cfg) && Inv(cfg, s) && Truthful(cfg, s) && AdmissibleRun(cfg, s, es) && SteadyRun(cfg, s, es)
    requires Run(cfg, s, es).daemon == Moving(b, UnlinkCopy)
    ensures b.next < |b.listing| && b.listing[b.next] in Run(cfg, s, es).w.backlog
    ensures var w, w' := Run(cfg, s, es).w, Run(cfg, s, es + [DaemonDo(Done)]).w;
            var p, path := Resolve(w, b.mount), Path(b.date, b.listing[b.next]);
            && BadCopyAt(cfg, w.stores, p, path, w.backlog[b.listing[b.next]].content)
            && OnlyRemoves(w.stores, w'.stores, p, path) && w'.backlog == w.backlog
  {
    RunKeeps(cfg, s, es);
    ManifestsStayTrue(cfg, s, es);
    RunSnoc(cfg, s, es, DaemonDo(Done));
    var s' := Run(cfg, s, es);
    hide Run, OnlyRemoves, BadCopyAt, AdmissibleRun, SteadyRun, Sane, Inv, ManifestsTrue;
    MovingIsGood(cfg, s', b, UnlinkCopy);
    MovingStep(cfg, s', b, UnlinkCopy, Done);
    UnlinkCopyRemoves(cfg, s', b);
    hide Truthful, TransferInv, Step, HasDir, OnBranch;
  }
}
