/** The exact retry budget of installs: an install that fails every time is
    attempted once more than it has retries, and uninstalled in between. */
module InstallBudget {
  import opened Api
  import opened Snapshots
  import opened Releases
  import opened Recording
  import opened Requests
  import opened State
  import opened Actions
  import opened AtomicRelease
  import opened Runs
  import opened Coherence
  import opened Recovery
  import opened UpgradeBudget

  /** Tests are off, installs are remediated, and retries are limited. */
  ghost predicate PlainInstall(req: Request) {
    && !req.spec.testEnable && !MustRetry(req.spec.installStrategy, req.defaultToRetry)
    && req.spec.installRemediation.retries >= 0
  }

  /** There is no release, or only an uninstalled one, and no force request. */
  ghost predicate Vacant(req: Request, w: World) {
    && Agrees(req, w) && !ForceRequested(req, w.status)
    && var last := Last(w.storage, req.spec.name);
    last.None? || last.value.status == Uninstalled
  }

  /** After a failed install: its release is the whole history. */
  ghost predicate FallenInstall(req: Request, w: World) {
    && Agrees(req, w) && |w.status.history| == 1 && Last(w.storage, req.spec.name).Some?
    && Mirrors(w.status.history[0], Last(w.storage, req.spec.name).value)
    && w.status.lastAction == ActionInstall && w.status.installFailures > 0
    && !ForceRequested(req, w.status)
  }

  /** The same, once the release is marked as failed. */
  ghost predicate BrokenInstall(req: Request, w: World) {
    FallenInstall(req, w) && Last(w.storage, req.spec.name).value.status == StatusFailed
  }

  /** Helm uninstalls the last release: it writes that release as something else,
      and in the end keeps it as uninstalled or removes everything. */
  ghost predicate Uninstalls(req: Request, sto: Storage, helm: HelmRun) {
    && !helm.failed && Behaved(req, UninstallRemediation, sto, helm)
    && Last(sto, req.spec.name).Some?
    && var r := Last(sto, req.spec.name).value;
    && (helm.target.Some? ==> helm.target.value.name == r.name && helm.target.value.ns == r.ns
                              && helm.target.value.version == r.version)
    && r.version in Observe(helm.writes) && Observe(helm.writes)[r.version] != ObserveRelease(r)
    && var last := Last(Apply(sto, helm.writes), req.spec.name);
    last.Some? ==> last.value.status == Uninstalled
  }

  // ---------- The install ----------

  lemma VacantIsAbsent(req: Request, w: World, diff: Diff)
    requires Vacant(req, w)
    ensures Determine(req, w.status, w.storage, false, diff) == Some(Absent)
  {
  }

  lemma LatestSingle(h: seq<Snapshot>)
    requires |h| == 1
    ensures Latest(h) == Some(h[0]) && Sorted(h) == h
  {
  }

  lemma InstallBreaks(req: Request, w: World, down: bool, helm: HelmRun)
    requires Agrees(req, w) && !ForceRequested(req, w.status)
    requires w.status.installFailures >= 0 && FailsOnTop(req, w.storage, helm)
    ensures var acted := Execute(req, Install, w, down, helm);
            && acted.result.Ok? && FallenInstall(req, acted.world)
            && acted.world.status.installFailures == w.status.installFailures + 1
            && acted.world.storage == Apply(w.storage, helm.writes)
  {
    var name, ns, ws, oci := req.spec.name, req.spec.ns, helm.writes, w.status.lastAttemptedRevisionDigest;
    var failed := Last(Apply(w.storage, ws), name).value;
    ReleaseAgrees(req, Install, w, down, helm);
    NewTopObserved(w.storage, ws, name, ns);
    RecordFirst(req.canonical, ws, oci, ActionInstall);
    assert Mirrors(Head(req.canonical, Observe(ws), oci, ActionInstall), failed);
  }

  lemma VacantDecided(req: Request, w: World, t: Turn)
    requires Vacant(req, w) && Calm(t) && !req.spec.installRemediation.RetriesExhausted(w.status)
    ensures var (d, e) := Decided(req, w, Absent, t);
            && d.next == Run(Install) && Agrees(req, e.decided)
            && e.decided.status == RememberForce(req, w.status).(history := e.decided.status.history)
            && e.decided.storage == w.storage
  {
    SortedCoherent(w.status.history, w.storage, req.spec.name, req.spec.ns);
  }

  /** With retries left, the first turn installs, and goes on. */
  lemma InstallTurn(req: Request, w: World, t: Turn)
    requires Vacant(req, w) && Calm(t) && FailsOnTop(req, w.storage, t.helm)
    requires w.status.installFailures >= 0 && !req.spec.installRemediation.RetriesExhausted(w.status)
    ensures var r := Turning(req, w, [], t);
            && r.Go? && r.event.ran == Some(Install) && FallenInstall(req, r.event.after)
            && r.event.after.status.installFailures == w.status.installFailures + 1
            && r.event.after.storage == Apply(w.storage, t.helm.writes)
  {
    VacantIsAbsent(req, w, t.diff);
    VacantDecided(req, w, t);
    var (d, e) := Decided(req, w, Absent, t);
    InstallBreaks(req, e.decided, t.actionDown, t.helm);
  }

  // ---------- The unlock ----------

  lemma UnlockSingle(canonical: string, s: Snapshot, r: Release)
    requires s.Targets(r.name, r.ns, r.version)
    ensures ObserveUnlock(canonical, [s], r) == [Retake(canonical, r, s, s.action)]
  {
  }

  /** The pending release of an install is unlocked as a failed one. */
  lemma UnlockMendsInstall(req: Request, w: World, helm: HelmRun)
    requires FallenInstall(req, w) && Jammed(req, w.storage) && !helm.failed
    ensures var w' := RunUnlock(req, World(RememberForce(req, w.status), w.storage), false, helm).world;
            && BrokenInstall(req, w') && w'.storage == Freed(req, w.storage)
            && w'.status.installFailures == w.status.installFailures
  {
    var w1, s, r := World(RememberForce(req, w.status), w.storage), w.status.history[0], Last(w.storage, req.spec.name).value;
    UnlockAgrees(req, w1, false, helm);
    UnlockRuns(req, w1, helm);
    assert w.status.history == [s];
    UnlockSingle(req.canonical, s, Unlocked(r));
    RetakeMirrors(req.canonical, Unlocked(r), s, s.action, None);
    FreedKeeps(req, w.storage, r.version - 1);
  }

  /** The turn that unlocks a pending release. */
  lemma JammedInstallTurn(req: Request, w: World, t: Turn) returns (u: Event)
    requires FallenInstall(req, w) && Jammed(req, w.storage) && Unlocks(t)
    ensures Turning(req, w, [TypeRelease], t) == Go(u) && u.ran == Some(Unlock)
    ensures BrokenInstall(req, u.after) && u.after.storage == Freed(req, w.storage)
    ensures u.after.status.installFailures == w.status.installFailures
  {
    LockedIsUnlockedFirst(req, w, [TypeRelease], t);
    UnlockMendsInstall(req, w, t.helm);
    u := Turning(req, w, [TypeRelease], t).event;
  }

  // ---------- The uninstall ----------

  lemma BrokenInstallIsFailed(req: Request, w: World, diff: Diff)
    requires BrokenInstall(req, w)
    ensures Determine(req, w.status, w.storage, false, diff) == Some(Failed)
  {
  }

  lemma BrokenInstallDecided(req: Request, w: World, t: Turn)
    requires PlainInstall(req) && BrokenInstall(req, w) && Calm(t)
    ensures var (d, e) := Decided(req, w, Failed, t);
            && d.next == (if req.spec.installRemediation.RetriesExhausted(w.status)
                             && !req.spec.installRemediation.MustRemediateLastFailure()
                          then Fail(ExceededMaxRetries) else Run(UninstallRemediation))
            && d.status == RememberForce(req, w.status)
            && e.decided == World(d.status, w.storage) && e.ran.None?
  {
    LatestSingle(w.status.history);
  }

  /** A single snapshot follows the last write of its release. */
  lemma {:induction false} UninstallSingle(canonical: string, s: Snapshot, ws: seq<Write>)
    requires AllOurs(ws, s.name, s.ns)
    ensures var h := ObserveAll(canonical, UninstallObserver(ActionUninstallRemediation), [s], ws);
            && |h| == 1 && SameSubject(s, h[0])
            && (s.version in Observe(ws) ==>
                  h[0].digest == Digest(canonical, Encoded(Observe(ws)[s.version].(oci := s.oci))))
  {
    if ws != [] {
      assert ws[|ws| - 1] in ws;
      UninstallSingle(canonical, s, ws[..|ws| - 1]);
    }
  }

  /** An uninstall that succeeds leaves room for another install. */
  lemma UninstallVacates(req: Request, w: World, down: bool, helm: HelmRun)
    requires BrokenInstall(req, w) && Uninstalls(req, w.storage, helm)
    ensures var acted := Execute(req, UninstallRemediation, w, down, helm);
            && acted.result.Ok? && Vacant(req, acted.world)
            && acted.world.status == w.status.(history := acted.world.status.history)
  {
    var s := w.status.history[0];
    LatestSingle(w.status.history);
    UninstallAgrees(req, w, helm);
    if !Purged(req, w.storage, helm.writes) {
      TameOurs(UninstallObserver(ActionUninstallRemediation), req.spec.name, req.spec.ns, w.storage, helm.writes);
    }
    assert w.status.history == [s];
    UninstallSingle(req.canonical, s, helm.writes);
    var h := ObserveAll(req.canonical, UninstallObserver(ActionUninstallRemediation), [s], helm.writes);
    LatestSingle(h);
    var o, r := Observe(helm.writes)[s.version], Last(w.storage, req.spec.name).value;
    ObserveSerialised(helm.writes);
    assert Encoded(o.(oci := s.oci)) != Encoded(ObserveRelease(r).(oci := s.oci));
  }

  lemma UninstallConcludes(req: Request, d: Decision, e: Event, previous: seq<ReconcilerType>, t: Turn)
    requires PlainInstall(req) && Calm(t) && d.next == Run(UninstallRemediation) && e.ran.None? && TypeRemediate !in previous
    requires e.decided.status.lastAction == ActionInstall
    requires var acted := Execute(req, UninstallRemediation, e.decided, t.actionDown, t.helm);
             acted.result.Ok? && acted.world.status == e.decided.status.(history := acted.world.status.history)
    ensures var acted := Execute(req, UninstallRemediation, e.decided, t.actionDown, t.helm);
            var r := Proceed(req, d, e, previous, t);
            && r.Stop? && r.last.Some? && r.last.value.ran == Some(UninstallRemediation) && r.world == acted.world
            && r.result == Failure(if req.spec.installRemediation.RetriesExhausted(e.decided.status) then ExceededMaxRetries
                                   else MustRequeue)
  {
  }

  /** Whether the failure that makes the count `n` is uninstalled. */
  predicate UninstalledAfter(req: Request, n: int) {
    n <= req.spec.installRemediation.retries || req.spec.installRemediation.MustRemediateLastFailure()
  }

  /** The release between attempts, with `n` failures counted. */
  ghost predicate BetweenInstalls(req: Request, w: World, n: nat) {
    if n == 0 || UninstalledAfter(req, n) then Vacant(req, w) else BrokenInstall(req, w)
  }

  /** The turn after failure number `n` ends the attempt: by an uninstall if
      retries remain or the last failure must be remediated, and for good
      exactly if none remain. */
  ghost predicate Cleared(req: Request, n: nat, r: Turned) {
    && r.Stop? && r.last.Some?
    && r.last.value.ran == (if UninstalledAfter(req, n) then Some(UninstallRemediation) else None)
    && r.result == Failure(if n <= req.spec.installRemediation.retries then MustRequeue else ExceededMaxRetries)
    && BetweenInstalls(req, r.world, n) && r.world.status.installFailures == n && r.world.status.lastAction == ActionInstall
  }

  lemma UninstallTurn(req: Request, w: World, previous: seq<ReconcilerType>, t: Turn, n: nat)
    requires PlainInstall(req) && BrokenInstall(req, w) && Calm(t) && w.status.installFailures == n && TypeRemediate !in previous
    requires UninstalledAfter(req, n) ==> Uninstalls(req, w.storage, t.helm)
    ensures Cleared(req, n, Turning(req, w, previous, t))
  {
    BrokenInstallIsFailed(req, w, t.diff);
    BrokenInstallDecided(req, w, t);
    var (d, e) := Decided(req, w, Failed, t);
    assert Turning(req, w, previous, t) == Proceed(req, d, e, previous, t);
    if UninstalledAfter(req, n) {
      UninstallVacates(req, e.decided, t.actionDown, t.helm);
      UninstallConcludes(req, d, e, previous, t);
    }
  }

  // ---------- One attempt ----------

  /** The environment of attempt number `n`, in which the install fails after
      writing, a release that it leaves pending can be unlocked, and an
      uninstall, if there is one, succeeds. */
  ghost predicate AdverseInstall(req: Request, n: nat, w: World, env: nat -> Turn) {
    && Calm(env(0)) && FailsOnTop(req, w.storage, env(0).helm)
    && var sto := Apply(w.storage, env(0).helm.writes);
    && (Jammed(req, sto) ==> Unlocks(env(1)))
    && var t := env(if Jammed(req, sto) then 2 else 1);
    && Calm(t) && (UninstalledAfter(req, n) ==> Uninstalls(req, Freed(req, sto), t.helm))
  }

  ghost predicate OneInstall(req: Request, n: int, o: Outcome) {
    && RunsThen(req, o, Install, if UninstalledAfter(req, n) then Some(UninstallRemediation) else None)
    && o.result == Failure(if n <= req.spec.installRemediation.retries then MustRequeue else ExceededMaxRetries)
  }

  ghost predicate InstallFailedOnce(req: Request, n: nat, o: Outcome) {
    OneInstall(req, n, o) && BetweenInstalls(req, o.world, n)
    && o.world.status.installFailures == n && o.world.status.lastAction == ActionInstall
  }

  /** What comes after the install of an attempt. */
  ghost predicate EndsInstall(req: Request, n: nat, jam: bool, o: Outcome) {
    && |o.events| == (if jam then 2 else 1) && (jam ==> o.events[0].ran == Some(Unlock))
    && Cleared(req, n, Stop(Some(o.events[|o.events| - 1]), o.world, o.result))
  }

  lemma UnlockedBeforeUninstall(req: Request, n: nat, u: Event, rest: Outcome)
    requires u.ran == Some(Unlock) && EndsInstall(req, n, false, rest)
    ensures EndsInstall(req, n, true, Outcome([u] + rest.events, rest.world, rest.result))
  {
  }

  lemma InstalledBefore(req: Request, n: nat, e: Event, rest: Outcome)
    requires e.ran == Some(Install) && EndsInstall(req, n, Jammed(req, e.after.storage), rest)
    ensures InstallFailedOnce(req, n, Outcome([e] + rest.events, rest.world, rest.result))
  {
  }

  lemma InstallFailedThen(req: Request, w: World, previous: seq<ReconcilerType>, env: nat -> Turn, k: nat, n: nat)
    requires PlainInstall(req) && BrokenInstall(req, w) && w.status.installFailures == n
    requires Calm(env(k)) && TypeRemediate !in previous
    requires UninstalledAfter(req, n) ==> Uninstalls(req, w.storage, env(k).helm)
    ensures EndsInstall(req, n, false, Reconciling(req, w, previous, env, k))
  {
    UninstallTurn(req, w, previous, env(k), n);
    var r := Turning(req, w, previous, env(k));
    OneTurnFrom(req, w, previous, env, k, r.last.value, r.world, r.result);
  }

  lemma InstallJammedThen(req: Request, w: World, env: nat -> Turn, n: nat)
    requires PlainInstall(req) && FallenInstall(req, w) && Jammed(req, w.storage) && w.status.installFailures == n
    requires Unlocks(env(1)) && Calm(env(2))
    requires UninstalledAfter(req, n) ==> Uninstalls(req, Freed(req, w.storage), env(2).helm)
    ensures EndsInstall(req, n, true, Reconciling(req, w, [TypeRelease], env, 1))
  {
    var u := JammedInstallTurn(req, w, env(1));
    InstallFailedThen(req, u.after, [TypeRelease, TypeUnlock], env, 2, n);
    var rest := Reconciling(req, u.after, [TypeRelease, TypeUnlock], env, 2);
    ReleaseThenUnlock();
    GoThen(req, w, [TypeRelease], env, 1, u, Unlock, [TypeRelease, TypeUnlock], rest);
    UnlockedBeforeUninstall(req, n, u, rest);
  }

  lemma InstallAttemptEnds(req: Request, w: World, env: nat -> Turn, e: Event, n: nat)
    requires Turning(req, w, [], env(0)) == Go(e) && e.ran == Some(Install)
    requires EndsInstall(req, n, Jammed(req, e.after.storage), Reconciling(req, e.after, [TypeRelease], env, 1))
    ensures InstallFailedOnce(req, n, Reconcile(req, w, env))
  {
    var rest := Reconciling(req, e.after, [TypeRelease], env, 1);
    FirstThen(req, w, env, e, TypeRelease, rest);
    InstalledBefore(req, n, e, rest);
  }

  lemma InstallAttemptExact(req: Request, w: World, env: nat -> Turn, n: nat)
    requires PlainInstall(req) && Vacant(req, w) && AdverseInstall(req, n, w, env)
    requires w.status.installFailures == n - 1 && 0 < n <= req.spec.installRemediation.retries + 1
    ensures InstallFailedOnce(req, n, Reconcile(req, w, env))
  {
    InstallTurn(req, w, env(0));
    var e := Turning(req, w, [], env(0)).event;
    if Jammed(req, e.after.storage) {
      InstallJammedThen(req, e.after, env, n);
    } else {
      InstallFailedThen(req, e.after, [TypeRelease], env, 1, n);
    }
    InstallAttemptEnds(req, w, env, e, n);
  }

  // ---------- The whole campaign ----------

  /** The attempt is at the request, does not crash, and meets an adverse
      environment. */
  ghost predicate MeetsInstall(req: Request, n: nat, w: World, a: Attempt) {
    a.req == req && a.crash.None? && AdverseInstall(req, n, w, a.env)
  }

  /** Attempt number `n`, counting from 1, meets the environment of that number. */
  ghost predicate AllAdverseInstalls(req: Request, w: World, attempts: seq<Attempt>) {
    attempts != [] ==>
      var init, a := attempts[..|attempts| - 1], attempts[|attempts| - 1];
      AllAdverseInstalls(req, w, init) && MeetsInstall(req, |attempts|, After(w, init), a)
  }

  /** The world before attempt number `i`, counting from 0. */
  ghost predicate InstallUnderway(req: Request, w: World, i: nat) {
    && w.status.installFailures == i
    && (i > 0 ==> Settled(req, w.status) && w.status.lastAction == ActionInstall)
    && BetweenInstalls(req, w, i)
  }

  /** Neither recording the attempt nor the token of a request to reconcile has a
      part in the state of the release. */
  lemma RecordedInstall(req: Request, w: World, i: nat)
    requires InstallUnderway(req, w, i)
    ensures InstallUnderway(req, World(Prepare(req, w.status), w.storage), i)
    ensures InstallUnderway(req, World(Handled(req, w.status), w.storage), i)
  {
  }

  lemma AttemptInstall(req: Request, w: World, n: nat, a: Attempt)
    requires PlainInstall(req) && 0 < n <= req.spec.installRemediation.retries + 1
    requires InstallUnderway(req, w, n - 1) && MeetsInstall(req, n, w, a)
    ensures OneInstall(req, n, Attempted(w, a)) && InstallUnderway(req, Survives(w, a), n)
  {
    RecordedInstall(req, w, n - 1);
    InstallAttemptExact(req, World(Prepare(req, w.status), w.storage), a.env, n);
    AttemptSettled(w, a);
    RecordedInstall(req, Attempted(w, a).world, n);
  }

  /** Attempt number `n`, counting from 1, is an install with `n` failures. */
  ghost predicate EachInstalls(req: Request, w: World, attempts: seq<Attempt>) {
    attempts != [] ==>
      var init, a := attempts[..|attempts| - 1], attempts[|attempts| - 1];
      EachInstalls(req, w, init) && OneInstall(req, |attempts|, Attempted(After(w, init), a))
  }

  lemma {:induction false} InstallCampaign(req: Request, w: World, attempts: seq<Attempt>)
    requires PlainInstall(req) && InstallUnderway(req, w, 0) && AllAdverseInstalls(req, w, attempts)
    requires |attempts| <= req.spec.installRemediation.retries + 1
    ensures InstallUnderway(req, After(w, attempts), |attempts|) && EachInstalls(req, w, attempts)
  {
    if attempts != [] {
      var init, a := attempts[..|attempts| - 1], attempts[|attempts| - 1];
      InstallCampaign(req, w, init);
      AttemptInstall(req, After(w, init), |attempts|, a);
    }
  }

  // ---------- After the campaign ----------

  lemma VacantSorted(req: Request, w: World)
    requires Vacant(req, w)
    ensures Vacant(req, World(RememberForce(req, w.status), w.storage))
    ensures Vacant(req, World(RememberForce(req, w.status.(history := Sorted(w.status.history))), w.storage))
  {
    SortedCoherent(w.status.history, w.storage, req.spec.name, req.spec.ns);
  }

  lemma ExhaustedVacant(req: Request, w: World, t: Turn)
    requires Vacant(req, w) && Calm(t) && w.status.lastAction == ActionInstall
    requires req.spec.installRemediation.RetriesExhausted(w.status)
    ensures var r := Turning(req, w, [], t);
            && TurnOver(r) && r.last.value.decided == r.world
            && r.world == World(RememberForce(req, SortedByLookup(req, w.status, w.storage, false)), w.storage)
  {
    VacantIsAbsent(req, w, t.diff);
  }

  /** A turn with no retries left changes nothing that matters. */
  lemma ExhaustedInstall(req: Request, w: World, t: Turn)
    requires PlainInstall(req) && InstallUnderway(req, w, req.spec.installRemediation.retries + 1) && Calm(t)
    ensures var r := Turning(req, w, [], t);
            && TurnOver(r) && r.last.value.decided == r.world
            && InstallUnderway(req, r.world, req.spec.installRemediation.retries + 1)
  {
    if UninstalledAfter(req, req.spec.installRemediation.retries + 1) {
      ExhaustedVacant(req, w, t);
      VacantSorted(req, w);
    } else {
      BrokenInstallIsFailed(req, w, t.diff);
      BrokenInstallDecided(req, w, t);
    }
  }

  lemma InstallOver(req: Request, w: World, a: Attempt)
    requires PlainInstall(req) && InstallUnderway(req, w, req.spec.installRemediation.retries + 1)
    requires a.req == req && Calm(a.env(0))
    ensures Over(Attempted(w, a)) && InstallUnderway(req, Survives(w, a), req.spec.installRemediation.retries + 1)
  {
    var w', n := World(Prepare(req, w.status), w.storage), req.spec.installRemediation.retries + 1;
    RecordedInstall(req, w, n);
    ExhaustedInstall(req, w', a.env(0));
    StoppedAttempt(w, a);
    RecordedInstall(req, Turning(req, w', [], a.env(0)).world, n);
  }

  lemma {:induction false} InstallsOver(req: Request, w: World, later: seq<Attempt>)
    requires PlainInstall(req) && InstallUnderway(req, w, req.spec.installRemediation.retries + 1) && Later(req, later)
    ensures AllOver(w, later) && InstallUnderway(req, After(w, later), req.spec.installRemediation.retries + 1)
  {
    if later != [] {
      var init, a := later[..|later| - 1], later[|later| - 1];
      assert a in later;
      InstallsOver(req, w, init);
      InstallOver(req, After(w, init), a);
    }
  }

  /** From a vacant release with no install failures, if every install fails after
      writing and every uninstall succeeds, then each of the first `retries`
      attempts installs, uninstalls and asks for another attempt; attempt number
      `retries + 1` installs, uninstalls exactly if the last failure must be
      remediated, and exceeds the retries; and none of any number of later
      attempts runs anything. */
  lemma ExactInstallBudget(req: Request, w: World, attempts: seq<Attempt>)
    requires PlainInstall(req) && Vacant(req, w) && w.status.installFailures == 0
    requires AllAdverseInstalls(req, w, attempts) && |attempts| == req.spec.installRemediation.retries + 1
    ensures EachInstalls(req, w, attempts)
    ensures forall later | Later(req, later) :: AllOver(After(w, attempts), later)
  {
    InstallCampaign(req, w, attempts);
    forall later | Later(req, later) ensures AllOver(After(w, attempts), later) {
      InstallsOver(req, After(w, attempts), later);
    }
  }

  // ---------- Such campaigns exist ----------

  /** How an install begins: it marks an uninstalled release that it replaces as
      superseded. */
  function Replaced(sto: Storage, name: string): seq<Write> {
    var last := Last(sto, name);
    if last.None? then [] else [Put(last.value.(status := Superseded))]
  }

  /** An uninstall that keeps the last release, as uninstalled. */
  lemma KeepsUninstalled(req: Request, sto: Storage, r: Release)
    requires StoreNamed(sto, req.spec.name, req.spec.ns) && Last(sto, req.spec.name) == Some(r) && r.status == StatusFailed
    ensures Uninstalls(req, sto, HelmRun([Put(r.(status := Uninstalled))], false, None))
  {
    var name, ns, gone := req.spec.name, req.spec.ns, r.(status := Uninstalled);
    var o, ws := UninstallObserver(ActionUninstallRemediation), [Put(gone)];
    LastGreatest(sto, name);
    assert ws[..0] == [] && Apply(sto, ws) == ApplyOne(sto, Put(gone));
    PutLast(sto, name, gone);
    assert TameWrite(o, name, ns, sto, Put(gone));
    assert Tame(o, name, ns, sto, ws[..0]);
    assert Tame(o, name, ns, sto, ws);
    assert Observe(ws) == map[r.version := ObserveRelease(gone)];
  }

  lemma InstallFailureExists(req: Request, sto: Storage, jam: bool) returns (helm: HelmRun)
    requires StoreNamed(sto, req.spec.name, req.spec.ns)
    ensures FailsOnTop(req, sto, helm) && StoreNamed(Apply(sto, helm.writes), req.spec.name, req.spec.ns)
    ensures Jammed(req, Apply(sto, helm.writes)) == jam && Replaced(sto, req.spec.name) < helm.writes
  {
    var name, ns := req.spec.name, req.spec.ns;
    var last, before := Last(sto, name), Replaced(sto, name);
    var version := if last.Some? then last.value.version + 1 else 1;
    var failed := Release(name, ns, version, if jam then PendingInstall else StatusFailed, "", "", "", "", "", []);
    if last.Some? {
      LastGreatest(sto, name);
    }
    PutOnTop(req, sto, before, failed);
    helm := HelmRun(before + [Put(failed)], true, None);
  }

  /** Every vacant release can meet an install that replaces what is left of an
      earlier one, and fails, leaving its release failed or pending, and an
      uninstall that succeeds. */
  lemma AdverseInstallExists(req: Request, n: nat, w: World, jam: bool) returns (env: nat -> Turn)
    requires Vacant(req, w)
    ensures AdverseInstall(req, n, w, env) && Replaced(w.storage, req.spec.name) < env(0).helm.writes
    ensures Jammed(req, Apply(w.storage, env(0).helm.writes)) == jam
  {
    var helm := InstallFailureExists(req, w.storage, jam);
    var sto := Apply(w.storage, helm.writes);
    FreedNamed(req, sto);
    var r := Last(Freed(req, sto), req.spec.name).value;
    if jam {
      FreedKeeps(req, sto, Last(sto, req.spec.name).value.version - 1);
    }
    KeepsUninstalled(req, Freed(req, sto), r);
    var t0, t1 := CALM.(helm := helm), CALM.(helm := HelmRun([Put(r.(status := Uninstalled))], false, None));
    env := (n: nat) => if n == 0 then t0 else t1;
  }

  lemma OneMoreInstall(req: Request, w: World, init: seq<Attempt>, a: Attempt)
    requires AllAdverseInstalls(req, w, init) && MeetsInstall(req, |init| + 1, After(w, init), a)
    ensures AllAdverseInstalls(req, w, init + [a])
  {
    assert (init + [a])[..|init|] == init;
  }

  lemma UnderwayVacant(req: Request, w: World, i: nat)
    requires InstallUnderway(req, w, i) && i <= req.spec.installRemediation.retries
    ensures Vacant(req, w)
  {
  }

  /** So the budget is about campaigns that there are. */
  lemma {:induction false} InstallCampaignExists(req: Request, w: World, n: nat, jam: bool) returns (attempts: seq<Attempt>)
    requires PlainInstall(req) && Vacant(req, w) && w.status.installFailures == 0
    requires n <= req.spec.installRemediation.retries + 1
    ensures AllAdverseInstalls(req, w, attempts) && |attempts| == n
  {
    attempts := [];
    if n > 0 {
      var init := InstallCampaignExists(req, w, n - 1, jam);
      InstallCampaign(req, w, init);
      UnderwayVacant(req, After(w, init), n - 1);
      var env := AdverseInstallExists(req, n, After(w, init), jam);
      OneMoreInstall(req, w, init, Attempt(req, env, None));
      attempts := init + [Attempt(req, env, None)];
    }
  }
}
