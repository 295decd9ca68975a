/** Rolling back to a verified target, recovering from a crash, and what an
    error of an action says about the storage. */
module Recovery {
  import opened Api
  import opened Snapshots
  import opened Releases
  import opened Recording
  import opened Requests
  import opened State
  import opened Actions
  import opened AtomicRelease
  import opened Runs
  import opened Coherence
  import opened Tidiness

  // ---------- Rollback ----------

  /** A decision to roll back is made for a failed release after an upgrade, with
      a verified target. */
  lemma RollbackDecided(req: Request, st: Status, sto: Storage, state: ReleaseStatus, down: bool)
    requires ActionForState(req, st, sto, state, down).next == Run(Rollback)
    ensures var d := ActionForState(req, st, sto, state, down);
            && state.Failed? && st.lastAction == ActionUpgrade
            && req.spec.upgradeRemediation.GetStrategy() == RollbackStrategy
            && d.status.history == Truncate(st.history, req.spec.upgradeRemediation.MustIgnoreTestFailures(req.spec.testIgnoreFailures))
            && VerifySnapshot(sto, RollbackTarget(req, d.status), down) == Verified
  {
  }

  /** The target verified after truncation is the one the rollback computes again
      and passes to Helm. It is what the untruncated history would have given,
      strictly older than the latest snapshot, deployed or superseded, free of
      failed tests unless they are ignored, and it is in storage as recorded. */
  ghost predicate GoesToVerifiedTarget(req: Request, e: Event) {
    var st, ignore := e.decided.status, req.spec.upgradeRemediation.MustIgnoreTestFailures(req.spec.testIgnoreFailures);
    var target := RollbackTarget(req, st.(history := Sorted(st.history)));
    && target == RollbackTarget(req, st) == RollbackTarget(req, e.seen.status)
    && target.Some? && IsPrevious(st.history, target.value, ignore)
    && Latest(st.history).Some? && Latest(st.history) == Latest(e.seen.status.history)
    && target.value.version < Latest(st.history).value.version
    && (target.value.status == Deployed || target.value.status == Superseded)
    && (ignore || !target.value.HasTestInPhase(PhaseFailed))
    && var stored := Get(e.seen.storage, target.value.name, target.value.version);
       stored.Some? && VerifyReleaseObject(target.value, stored.value) == Verified
  }

  lemma RollbackVerified(req: Request, w: World, e: Event)
    requires Recorded(req, w, e) && e.next == Run(Rollback) && Distinct(e.decided.status.history)
    ensures GoesToVerifiedTarget(req, e)
  {
    var st := SortedByLookup(req, e.seen.status, e.seen.storage, e.turn.lastDown);
    var ignore := req.spec.upgradeRemediation.MustIgnoreTestFailures(req.spec.testIgnoreFailures);
    RollbackDecided(req, st, e.seen.storage, e.state, e.turn.getDown);
    PreviousSorted(w.status.history, ignore);
    LatestSorted(w.status.history);
    TruncateKeeps(st.history, ignore);
    PreviousFound(e.decided.status.history, ignore);
    LatestIsTop(e.decided.status.history);
  }

  /** Whenever a rollback is decided in a run from an empty status, through any
      requests for a release, crashes and other writers, it goes to the verified
      target; Helm need only have behaved in the actions completed before. */
  lemma RollbackGoesToVerifiedTarget(name: string, ns: string, sto: Storage, attempts: seq<Attempt>, a: Attempt, i: nat)
    requires AllOrderly(name, ns, World(EMPTY_STATUS, sto), attempts) && a.req.spec.name == name && a.req.spec.ns == ns
    requires var events := Attempted(After(World(EMPTY_STATUS, sto), attempts), a).events;
             && i < |events| && events[i].next == Run(Rollback)
             && forall e | e in events[..i] :: Orderly(a.req, e)
    ensures GoesToVerifiedTarget(a.req, Attempted(After(World(EMPTY_STATUS, sto), attempts), a).events[i])
  {
    var w := After(World(EMPTY_STATUS, sto), attempts);
    HistoryTidy(name, ns, World(EMPTY_STATUS, sto), attempts);
    AttemptTidy(w, a, i);
    var w', events := World(Prepare(a.req, w.status), w.storage), Attempted(w, a).events;
    RunLinked(a.req, w', [], a.env, 0);
    LinkedAfter(a.req, w', events, i);
    RollbackVerified(a.req, ReachedWorld(w', events[..i]), events[i]);
  }

  // ---------- Crash recovery ----------

  /** A release that is pending or uninstalling is unlocked before anything else,
      unless an unlock has run already. */
  lemma LockedIsUnlockedFirst(req: Request, w: World, previous: seq<ReconcilerType>, t: Turn)
    requires !t.canceled && !t.lastDown && t.patchBefore && TypeUnlock !in previous
    requires var last := Last(Seen(w, t).storage, req.spec.name);
             last.Some? && IsLocked(last.value.status)
    ensures var r := Turning(req, w, previous, t);
            var e := if r.Go? then Some(r.event) else r.last;
            && e.Some? && e.value.state == Locked && e.value.ran == Some(Unlock)
            && e.value.after == RunUnlock(req, World(RememberForce(req, w.status), Seen(w, t).storage), t.actionDown, t.helm).world
            && (!t.actionDown && !t.helm.failed && t.patchAfter ==> r.Go?)
  {
  }

  /** The state that unlocking leads to. */
  function StateAfterUnlock(h: seq<Snapshot>, r: Release): ReleaseStatus {
    if h != [] && (Latest(h).value.Targets(r.name, r.ns, r.version)
                   || VerifyReleaseObject(Latest(h).value, Unlocked(r)) == Verified)
    then Failed else Unmanaged
  }

  /** The state of an unlocked release, given what became of the latest snapshot. */
  lemma UnlockedState(req: Request, st: Status, h: seq<Snapshot>, cur: Option<Snapshot>, r: Release, diff: Diff)
    requires cur.Some? <==> h != []
    requires h != [] ==>
               var prior := Latest(h).value;
               cur == Some(if prior.Targets(r.name, r.ns, r.version) then Retake(req.canonical, Unlocked(r), prior, prior.action) else prior)
    ensures StateOf(req, st, cur, Some(Unlocked(r)), diff) == Some(StateAfterUnlock(h, r))
  {
    if h != [] {
      RetakeMirrors(req.canonical, Unlocked(r), Latest(h).value, Latest(h).value.action, None);
    }
  }

  /** If unlocking succeeds and nobody else writes, the release is next found
      failed if the latest snapshot targets it, or verifies against it
      nevertheless, as one of an older format does; it is found unmanaged
      otherwise, and never locked again. */
  lemma UnlockRecovers(req: Request, w: World, helm: HelmRun, diff: Diff)
    requires WellKeyed(w.storage) && !helm.failed
    requires Last(w.storage, req.spec.name).Some? && IsLocked(Last(w.storage, req.spec.name).value.status)
    ensures var w' := RunUnlock(req, w, false, helm).world;
            Determine(req, w'.status, w'.storage, false, diff)
              == Some(StateAfterUnlock(w.status.history, Last(w.storage, req.spec.name).value))
  {
    var h, r := w.status.history, Last(w.storage, req.spec.name).value;
    var r' := Unlocked(r);
    LastGreatest(w.storage, req.spec.name);
    PutLast(w.storage, req.spec.name, r');
    var st := RunUnlock(req, w, false, helm).world.status;
    if h != [] {
      UnlockLatest(req.canonical, h, r');
    }
    UnlockedState(req, st, h, Latest(st.history), r, diff);
  }

  /** A snapshot of an older format is taken for a snapshot of any release: here
      one of version 1 for a release of version 2. */
  lemma LegacyTakenForAny(req: Request, diff: Diff)
    ensures var s := Snapshot("", Unparsable(""), req.spec.name, req.spec.ns, 1, Deployed, ActionInstall, "", "", Unparsable(""), None, "");
            var r := Release(req.spec.name, req.spec.ns, 2, PendingUpgrade, "", "", "", "", "", []);
            var w := RunUnlock(req, World(EMPTY_STATUS.(history := [s]), map[KeyOf(r) := r]), false, HelmRun([], false, None)).world;
            Determine(req, w.status, w.storage, false, diff) == Some(Failed)
  {
    var s := Snapshot("", Unparsable(""), req.spec.name, req.spec.ns, 1, Deployed, ActionInstall, "", "", Unparsable(""), None, "");
    var r := Release(req.spec.name, req.spec.ns, 2, PendingUpgrade, "", "", "", "", "", []);
    var sto: Storage := map[KeyOf(r) := r];
    LastIs(sto, req.spec.name, 2);
    LatestMember([s]);
    UnlockRecovers(req, World(EMPTY_STATUS.(history := [s]), sto), HelmRun([], false, None), diff);
  }

  /** A turn that is not interrupted and knows its state has an event. */
  lemma TurnHasEvent(req: Request, w: World, previous: seq<ReconcilerType>, t: Turn, state: ReleaseStatus)
    requires !t.canceled && Determine(req, w.status, Seen(w, t).storage, t.lastDown, t.diff) == Some(state)
    ensures var r := Turning(req, w, previous, t);
            var e := if r.Go? then Some(r.event) else r.last;
            e.Some? && e.value.state == state
  {
    var (d, e) := Decided(req, Seen(w, t), state, t);
    ProceedCompleted(req, d, e, previous, t);
  }

  /** The first two events of a run whose first turn goes on. */
  lemma FirstTwoEvents(req: Request, w: World, env: nat -> Turn, e: Event, state: ReleaseStatus)
    requires Turning(req, w, [], env(0)) == Go(e)
    requires !env(1).canceled && Determine(req, e.after.status, Seen(e.after, env(1)).storage, env(1).lastDown, env(1).diff) == Some(state)
    ensures var events := Reconcile(req, w, env).events;
            |events| >= 2 && events[0] == e && events[1].state == state
  {
    GoShape(req, w, [], env(0));
    TurnHasEvent(req, e.after, [] + [TypeOf(e.ran.value)], env(1), state);
  }

  /** Crash recovery of a controller that has run from an empty status, through
      any requests, environments and crashes: if the next attempt finds a
      pending or uninstalling release, whatever left it, it unlocks that release
      first, and then finds it failed exactly if the latest snapshot targets it,
      and unmanaged otherwise. */
  lemma CrashRecovers(sto: Storage, attempts: seq<Attempt>, a: Attempt)
    requires var w, t, u := After(World(EMPTY_STATUS, sto), attempts), a.env(0), a.env(1);
             && !t.canceled && !t.lastDown && t.patchBefore && !t.actionDown && !t.helm.failed && t.patchAfter
             && !u.canceled && u.foreign.None? && !u.lastDown
             && WellKeyed(Seen(w, t).storage)
             && var last := Last(Seen(w, t).storage, a.req.spec.name);
                last.Some? && IsLocked(last.value.status)
    ensures var w := After(World(EMPTY_STATUS, sto), attempts);
            var r, cur := Last(Seen(w, a.env(0)).storage, a.req.spec.name).value, Latest(w.status.history);
            var events := Attempted(w, a).events;
            && |events| >= 2 && events[0].state == Locked && events[0].ran == Some(Unlock)
            && events[1].state == if cur.Some? && cur.value.Targets(r.name, r.ns, r.version) then Failed else Unmanaged
  {
    SnapshotsGenuine(sto, attempts);
    var w := After(World(EMPTY_STATUS, sto), attempts);
    var w', t := World(Prepare(a.req, w.status), w.storage), a.env(0);
    var left := World(RememberForce(a.req, w'.status), Seen(w', t).storage);
    var r := Last(left.storage, a.req.spec.name).value;
    LockedIsUnlockedFirst(a.req, w', [], t);
    UnlockRecovers(a.req, left, t.helm, a.env(1).diff);
    LastGreatest(left.storage, a.req.spec.name);
    GenuineTargets(w.status.history, r);
    var e := Turning(a.req, w', [], t).event;
    FirstTwoEvents(a.req, w', a.env, e, StateAfterUnlock(w.status.history, r));
  }

  /** A genuine snapshot verifies only against releases it targets. */
  lemma GenuineTargets(h: seq<Snapshot>, r: Release)
    requires Genuine(h)
    ensures var cur := Latest(h);
            StateAfterUnlock(h, r) == if cur.Some? && cur.value.Targets(r.name, r.ns, r.version) then Failed else Unmanaged
  {
    if h != [] {
      LatestMember(h);
    }
  }

  // ---------- The error contract ----------

  /** Install and upgrade return an error exactly if Helm failed without a write,
      and then the storage is as it was; they count against their own retries
      exactly if Helm failed after a write. */
  lemma ReleaseErrorContract(req: Request, a: Action, w: World, down: bool, helm: HelmRun)
    requires a.Install? || a.Upgrade?
    ensures var acted := Execute(req, a, w, down, helm);
            var own := if a.Install? then req.spec.installRemediation else req.spec.upgradeRemediation;
            && (acted.result.Err? <==> helm.failed && helm.writes == [])
            && (acted.result.Err? ==> acted.world.storage == w.storage)
            && (helm.failed ==>
                  && own.FailureCount(acted.world.status) == own.FailureCount(w.status) + (if helm.writes == [] then 0 else 1)
                  && acted.world.status.failures == w.status.failures + 1)
            && (!helm.failed ==> own.FailureCount(acted.world.status) in {own.FailureCount(w.status), 0})
  {
  }

  /** The end of a rollback returns an error exactly if Helm failed and the digest
      of the latest snapshot is what it was. */
  lemma FinishRollbackContract(st: Status, sto: Storage, helm: HelmRun, cur: Snapshot)
    requires st.history != []
    ensures var acted := FinishRollback(st, sto, helm, cur);
            && Latest(acted.world.status.history) == Latest(st.history) && Latest(st.history).Some?
            && (acted.result.Err? <==> helm.failed && Latest(st.history).value.digest == cur.digest)
  {
    LatestSorted(st.history);
  }

  /** A rollback returns an error only if the digest of the latest snapshot is
      what it was, and does return one if Helm failed and it is. */
  lemma RollbackErrorContract(req: Request, w: World, helm: HelmRun)
    ensures var acted := RunRollback(req, w, helm);
            var before, after := Latest(w.status.history), Latest(acted.world.status.history);
            && (acted.result.Err? ==> before.None? || (after.Some? && after.value.digest == before.value.digest))
            && (helm.failed && before.Some? && after.Some? && after.value.digest == before.value.digest ==> acted.result.Err?)
  {
    LatestSorted(w.status.history);
    if w.status.history != [] {
      SortedLength(w.status.history);
      var s, h := Sorted(w.status.history), ObserveAll(req.canonical, RollbackObserver, Sorted(w.status.history), helm.writes);
      RollbackNotEmpty(req.canonical, s, helm.writes);
      FinishRollbackContract(w.status.(history := h), Apply(w.storage, helm.writes), helm, Latest(w.status.history).value);
    }
  }

  lemma {:induction false} RollbackNotEmpty(canonical: string, h: seq<Snapshot>, ws: seq<Write>)
    requires h != []
    ensures ObserveAll(canonical, RollbackObserver, h, ws) != []
  {
  }

  /** An uninstall remediation returns an error exactly if there is nothing to
      uninstall or the digest of the latest snapshot is what it was, so it
      reports success only if that digest changed. */
  lemma UninstallErrorContract(req: Request, w: World, helm: HelmRun)
    ensures var acted := RunUninstallRemediation(req, w, helm);
            var before, after := Latest(w.status.history), Latest(acted.world.status.history);
            acted.result.Err? <==> before.None? || (after.Some? && after.value.digest == before.value.digest)
  {
    if w.status.history != [] {
      var o := UninstallObserver(ActionUninstallRemediation);
      var h := ObserveAll(req.canonical, o, Sorted(w.status.history), helm.writes);
      SortedLength(w.status.history);
      ObserveAllLength(req.canonical, o, Sorted(w.status.history), helm.writes);
      SortedLength(h);
      LatestSorted(h);
    }
  }

  lemma RollbackErrorSame(h': seq<Snapshot>, r': Option<Release>, h: seq<Snapshot>, r: Option<Release>)
    requires h != [] && h' != [] && r.Some? && r'.Some?
    requires Mirrors(Latest(h).value, r.value) && Matches(Latest(h').value, r'.value) && !Latest(h').value.Legacy()
    requires Latest(h').value.digest == Latest(h).value.digest
    ensures ObserveRelease(r'.value) == ObserveRelease(r.value)
  {
  }

  /** What a rollback of genuine snapshots leaves to compare. */
  lemma RollbackObserved(req: Request, w: World, helm: HelmRun)
    requires Agrees(req, w) && Genuine(w.status.history) && w.status.history != []
    requires Last(w.storage, req.spec.name).Some? && Behaved(req, Rollback, w.storage, helm)
    ensures var w' := RunRollback(req, w, helm).world;
            && Agrees(req, w') && w'.status.history != [] && Last(w'.storage, req.spec.name).Some?
            && Genuine(w'.status.history)
  {
    RollbackAgrees(req, w, helm);
    ExecuteGenuine(req, Rollback, w, false, helm);
    SortedCoherent(w.status.history, w.storage, req.spec.name, req.spec.ns);
    var h := ObserveAll(req.canonical, RollbackObserver, Sorted(w.status.history), helm.writes);
    ObserveAllKeeps(req.canonical, RollbackObserver, Sorted(w.status.history), w.storage, helm.writes, req.spec.name, req.spec.ns);
    SortedMembers(h);
  }

  /** Where history and storage agree and Helm behaves, an error of a rollback
      means that the last release in storage is still the same release. */
  lemma RollbackErrorKeepsLast(req: Request, w: World, helm: HelmRun)
    requires Agrees(req, w) && Genuine(w.status.history) && w.status.history != []
    requires Last(w.storage, req.spec.name).Some? && Behaved(req, Rollback, w.storage, helm)
    requires RunRollback(req, w, helm).result.Err?
    ensures var last := Last(RunRollback(req, w, helm).world.storage, req.spec.name);
            last.Some? && ObserveRelease(last.value) == ObserveRelease(Last(w.storage, req.spec.name).value)
  {
    var w' := RunRollback(req, w, helm).world;
    RollbackErrorContract(req, w, helm);
    RollbackObserved(req, w, helm);
    LatestIsTop(w.status.history);
    LatestIsTop(w'.status.history);
    RollbackErrorSame(w'.status.history, Last(w'.storage, req.spec.name), w.status.history, Last(w.storage, req.spec.name));
  }
}
