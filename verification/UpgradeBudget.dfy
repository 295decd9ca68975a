/** The exact retry budget of upgrades: an upgrade that fails every time is
    attempted once more than it has retries, and rolled back in between. */
module UpgradeBudget {
  import opened Api
  import opened Snapshots
  import opened Releases
  import opened Recording
  import opened Requests
  import opened State
  import opened Actions
  import opened AtomicRelease
  import opened Runs
  import opened Coherence
  import opened Recovery

  /** Upgrades are remediated by rollback, and retries are limited. */
  ghost predicate Rolling(req: Request) {
    && !MustRetry(req.spec.upgradeStrategy, req.defaultToRetry)
    && req.spec.upgradeRemediation.GetStrategy() == RollbackStrategy
    && req.spec.upgradeRemediation.retries >= 0
  }

  /** And tests are off. */
  ghost predicate Plain(req: Request) {
    !req.spec.testEnable && Rolling(req)
  }

  predicate IgnoreTests(req: Request) {
    req.spec.upgradeRemediation.MustIgnoreTestFailures(req.spec.testIgnoreFailures)
  }

  /** The deployed release is not what the request asks for. */
  ghost predicate Wanting(req: Request, st: Status, cur: Snapshot, r: Release) {
    || !VerifyRelease(r, cur, req.chartName, req.chartVersion, req.values)
    || DigestChanged(req.spec.postRenderers, st.postRenderersDigest, req.canonical)
    || DigestChanged(req.spec.commonMetadata, st.commonMetadataDigest, req.canonical)
  }

  /** A managed, deployed, out-of-sync release that can be rolled back to, and no
      force request. */
  ghost predicate AtRest(req: Request, w: World) {
    && Agrees(req, w) && w.status.history != [] && Last(w.storage, req.spec.name).Some?
    && var cur, r := Latest(w.status.history).value, Last(w.storage, req.spec.name).value;
    && Mirrors(cur, r) && r.status == Deployed && Qualifies(cur, IgnoreTests(req))
    && Wanting(req, w.status, cur, r)
    && !ForceRequested(req, w.status)
  }

  /** The last release is pending. */
  ghost predicate Jammed(req: Request, sto: Storage) {
    Last(sto, req.spec.name).Some? && IsLocked(Last(sto, req.spec.name).value.status)
  }

  /** Helm fails an action after having written a new release, which it leaves
      failed, or pending if it fails to mark it. */
  ghost predicate FailsOnTop(req: Request, sto: Storage, helm: HelmRun) {
    && helm.failed && helm.writes != [] && NewTop(req.spec.name, req.spec.ns, sto, helm.writes)
    && var r := Last(Apply(sto, helm.writes), req.spec.name).value;
       r.status == StatusFailed || IsLocked(r.status)
  }

  /** What an action leaves of the release that was the last one before it. */
  function LeftOf(req: Request, sto: Storage, helm: HelmRun): Option<Release> {
    var last := Last(sto, req.spec.name);
    if last.None? then None else Get(Apply(sto, helm.writes), req.spec.name, last.value.version)
  }

  /** Helm fails an upgrade after having written a new release. Whatever
      else it writes or deletes, the release it was to replace is still there,
      deployed or superseded. */
  ghost predicate FailsAfterWriting(req: Request, sto: Storage, helm: HelmRun) {
    && FailsOnTop(req, sto, helm)
    && Last(sto, req.spec.name).Some? && LeftOf(req, sto, helm).Some?
    && var before, left := Last(sto, req.spec.name).value, LeftOf(req, sto, helm).value;
    && (left.status == Deployed || left.status == Superseded) && left.config == before.config
    && left.chartName == before.chartName && left.chartVersion == before.chartVersion
  }

  /** Helm rolls back to `target` by a new, deployed release. */
  ghost predicate RollsBack(req: Request, sto: Storage, target: Release, helm: HelmRun) {
    && !helm.failed && Tame(RollbackObserver, req.spec.name, req.spec.ns, sto, helm.writes)
    && var last := Last(Apply(sto, helm.writes), req.spec.name);
    && last.Some? && Last(sto, req.spec.name).Some? && last.value.version > Last(sto, req.spec.name).value.version
    && last.value.status == Deployed && last.value.config == target.config
    && last.value.chartName == target.chartName && last.value.chartVersion == target.chartVersion
  }

  // ---------- The upgrade ----------

  lemma RestIsOutOfSync(req: Request, w: World, diff: Diff)
    requires AtRest(req, w)
    ensures Determine(req, w.status, w.storage, false, diff) == Some(OutOfSync)
  {
  }

  /** After a failed upgrade: its release is on top of the history, with the
      release that was deployed before as the rollback target. */
  ghost predicate Fallen(req: Request, w: World, target: Release) {
    && Agrees(req, w) && w.status.history != [] && Last(w.storage, req.spec.name).Some?
    && Mirrors(Latest(w.status.history).value, Last(w.storage, req.spec.name).value)
    && Get(w.storage, target.name, target.version) == Some(target)
    && var prev := RollbackTarget(req, w.status);
    && prev.Some? && Mirrors(prev.value, target) && Wanting(req, w.status, prev.value, target)
    && w.status.lastAction == ActionUpgrade && w.status.upgradeFailures > 0
    && !ForceRequested(req, w.status)
  }

  /** The same, once the release is marked as failed. */
  ghost predicate Broken(req: Request, w: World, target: Release) {
    Fallen(req, w, target) && Last(w.storage, req.spec.name).value.status == StatusFailed
  }

  /** The latest snapshot follows its release through an upgrade that writes a new
      one on top. */
  lemma LatestFollows(req: Request, h: seq<Snapshot>, sto: Storage, ws: seq<Write>, oci: string, j: nat)
    requires Distinct(h) && Named(h, req.spec.name, req.spec.ns) && AllOurs(ws, req.spec.name, req.spec.ns) && ws != []
    requires j < |h| && (forall s | s in h :: s.version <= h[j].version) && Qualifies(h[j], IgnoreTests(req))
    requires Observe(ws).Keys != {} && h[j].version < Max(Observe(ws).Keys)
    requires Get(sto, req.spec.name, h[j].version).Some? && Mirrors(h[j], Get(sto, req.spec.name, h[j].version).value)
    requires var left := Get(Apply(sto, ws), req.spec.name, h[j].version);
             left.Some? && (left.value.status == Deployed || left.value.status == Superseded)
    ensures var h', left := Record(req.canonical, Observe(ws), h, oci, ActionUpgrade), Get(Apply(sto, ws), req.spec.name, h[j].version);
            |h'| == |h| + 1 && Mirrors(h'[j + 1], left.value) && Qualifies(h'[j + 1], IgnoreTests(req))
  {
    OlderSnapshot(req.canonical, h, sto, ws, oci, ActionUpgrade, req.spec.name, req.spec.ns, j);
    StoredAsObserved(sto, ws, req.spec.name, req.spec.ns, h[j].version);
  }

  /** Recording keeps every older snapshot in its place, one further down. */
  lemma OlderVersions(canonical: string, obs: Observed, h: seq<Snapshot>, oci: string, action: ReleaseAction, j: nat)
    requires obs.Keys != {} && VersionKeyed(obs) && j < |h| && forall s | s in h :: s.version <= h[j].version
    ensures var h' := Record(canonical, obs, h, oci, action);
            |h'| == |h| + 1 && forall k | 0 <= k < |h| :: h'[k + 1].version == h[k].version <= h[j].version
  {
    RecordSubjects(canonical, obs, h, oci, action);
    var h1, h' := [Head(canonical, obs, oci, action)] + h, Record(canonical, obs, h, oci, action);
    forall k | 0 <= k < |h| ensures h'[k + 1].version == h[k].version <= h[j].version {
      assert SameSubject(h1[k + 1], h'[k + 1]) && h[k] in h;
    }
  }

  lemma TargetFollows(req: Request, h: seq<Snapshot>, sto: Storage, ws: seq<Write>, oci: string, j: nat)
    requires Distinct(h) && Named(h, req.spec.name, req.spec.ns) && AllOurs(ws, req.spec.name, req.spec.ns) && ws != []
    requires j < |h| && (forall s | s in h :: s.version <= h[j].version) && Qualifies(h[j], IgnoreTests(req))
    requires Observe(ws).Keys != {} && VersionKeyed(Observe(ws)) && h[j].version < Max(Observe(ws).Keys)
    requires Get(sto, req.spec.name, h[j].version).Some? && Mirrors(h[j], Get(sto, req.spec.name, h[j].version).value)
    requires var left := Get(Apply(sto, ws), req.spec.name, h[j].version);
             left.Some? && (left.value.status == Deployed || left.value.status == Superseded)
    ensures var h' := Record(req.canonical, Observe(ws), h, oci, ActionUpgrade);
            && Latest(h') == Some(Head(req.canonical, Observe(ws), oci, ActionUpgrade))
            && Previous(h', IgnoreTests(req)).Some?
            && Mirrors(Previous(h', IgnoreTests(req)).value, Get(Apply(sto, ws), req.spec.name, h[j].version).value)
  {
    RecordBatch(req.canonical, Observe(ws), h, oci, ActionUpgrade);
    LatestFollows(req, h, sto, ws, oci, j);
    OlderVersions(req.canonical, Observe(ws), h, oci, ActionUpgrade, j);
    NextBelowTop(h, Record(req.canonical, Observe(ws), h, oci, ActionUpgrade), j, IgnoreTests(req));
  }

  /** After an upgrade that wrote a new release on top, the rollback target is the
      release that was deployed before, as the upgrade left it. */
  lemma TargetAfterUpgrade(req: Request, h: seq<Snapshot>, sto: Storage, ws: seq<Write>, oci: string)
    requires Coherent(req.spec.name, req.spec.ns, h, sto) && h != [] && ws != []
    requires NewTop(req.spec.name, req.spec.ns, sto, ws) && Last(sto, req.spec.name).Some?
    requires Mirrors(Latest(h).value, Last(sto, req.spec.name).value) && Qualifies(Latest(h).value, IgnoreTests(req))
    requires var left := Get(Apply(sto, ws), req.spec.name, Last(sto, req.spec.name).value.version);
             left.Some? && (left.value.status == Deployed || left.value.status == Superseded)
    ensures var h' := Record(req.canonical, Observe(ws), h, oci, ActionUpgrade);
            var left := Get(Apply(sto, ws), req.spec.name, Last(sto, req.spec.name).value.version).value;
            && Observe(ws).Keys != {} && Latest(h') == Some(Head(req.canonical, Observe(ws), oci, ActionUpgrade))
            && Previous(h', IgnoreTests(req)).Some? && Mirrors(Previous(h', IgnoreTests(req)).value, left)
  {
    LastGreatest(sto, req.spec.name);
    NewTopObserved(sto, ws, req.spec.name, req.spec.ns);
    NewTopAbove(h, sto, ws, req.spec.name, req.spec.ns);
    var j := LatestAt(h);
    assert h[j] in h;
    TargetFollows(req, h, sto, ws, oci, j);
  }

  /** The snapshot that was the latest is next below a new one. */
  lemma NextBelowTop(h: seq<Snapshot>, h': seq<Snapshot>, j: nat, ignore: bool)
    requires |h'| == |h| + 1 && j < |h| && forall k | 0 <= k < |h| :: h'[k + 1].version == h[k].version <= h[j].version
    requires Distinct(h') && IsTop(h', h'[0]) && Qualifies(h'[j + 1], ignore)
    ensures Previous(h', ignore) == Some(h'[j + 1])
  {
    QualifiesWasGood(ignore);
    var p := h'[j + 1];
    assert p in h' && p.version < h'[0].version;
    forall x, t | x in h' && WasGood(x, ignore) && IsTop(h', t) && x.version < t.version
      ensures x.version <= p.version
    {
      var k :| 0 <= k < |h'| && h'[k] == x;
      assert t.version <= h'[0].version;
      if k > 0 {
        assert h'[k - 1 + 1].version == h[k - 1].version;
      }
    }
    PreviousComplete(h', p, ignore);
  }

  /** What an upgrade that fails after writing makes of a release at rest. */
  lemma UpgradeBreaks(req: Request, w: World, down: bool, helm: HelmRun)
    requires AtRest(req, w) && w.status.upgradeFailures >= 0 && FailsAfterWriting(req, w.storage, helm)
    ensures var acted := Execute(req, Upgrade, w, down, helm);
            && acted.result.Ok?
            && Fallen(req, acted.world, LeftOf(req, w.storage, helm).value)
            && acted.world.status.upgradeFailures == w.status.upgradeFailures + 1
            && acted.world.storage == Apply(w.storage, helm.writes)
  {
    var name, ns, ws, oci := req.spec.name, req.spec.ns, helm.writes, w.status.lastAttemptedRevisionDigest;
    ReleaseAgrees(req, Upgrade, w, down, helm);
    NewTopObserved(w.storage, ws, name, ns);
    TargetAfterUpgrade(req, w.status.history, w.storage, ws, oci);
    assert Mirrors(Head(req.canonical, Observe(ws), oci, ActionUpgrade), Last(Apply(w.storage, ws), name).value);
    LastGreatest(w.storage, name);
    ApplyWellKeyed(w.storage, ws);
  }

  lemma RestSorted(req: Request, w: World)
    requires AtRest(req, w)
    ensures AtRest(req, World(RememberForce(req, w.status.(history := Sorted(w.status.history))), w.storage))
  {
    SortedCoherent(w.status.history, w.storage, req.spec.name, req.spec.ns);
    LatestSorted(w.status.history);
  }

  lemma UpgradeConcludes(req: Request, d: Decision, e: Event, t: Turn)
    requires Calm(t) && d.next == Run(Upgrade)
    requires Execute(req, Upgrade, e.decided, t.actionDown, t.helm).result.Ok?
    ensures Proceed(req, d, e, [], t)
              == Go(e.(ran := Some(Upgrade), after := Execute(req, Upgrade, e.decided, t.actionDown, t.helm).world))
  {
  }

  lemma RestDecided(req: Request, w: World, t: Turn)
    requires Last(w.storage, req.spec.name).Some? && Last(w.storage, req.spec.name).value.status == Deployed
    requires !ForceRequested(req, w.status) && Calm(t) && !req.spec.upgradeRemediation.RetriesExhausted(w.status)
    ensures var (d, e) := Decided(req, w, OutOfSync, t);
            && d.next == Run(Upgrade)
            && e.decided == World(RememberForce(req, w.status.(history := Sorted(w.status.history))), w.storage)
  {
  }

  /** With retries left, the first turn upgrades, and goes on. */
  lemma FirstTurn(req: Request, w: World, t: Turn) returns (made: Event)
    requires AtRest(req, w) && Calm(t) && FailsAfterWriting(req, w.storage, t.helm)
    requires w.status.upgradeFailures >= 0 && !req.spec.upgradeRemediation.RetriesExhausted(w.status)
    ensures Turning(req, w, [], t) == Go(made) && made.ran == Some(Upgrade)
    ensures Fallen(req, made.after, LeftOf(req, w.storage, t.helm).value)
    ensures made.after.status.upgradeFailures == w.status.upgradeFailures + 1
    ensures made.after.storage == Apply(w.storage, t.helm.writes)
    ensures Jammed(req, made.after.storage) || Last(made.after.storage, req.spec.name).value.status == StatusFailed
  {
    RestIsOutOfSync(req, w, t.diff);
    RestDecided(req, w, t);
    RestSorted(req, w);
    var (d, e) := Decided(req, w, OutOfSync, t);
    assert Turning(req, w, [], t) == Proceed(req, d, e, [], t);
    UpgradeBreaks(req, e.decided, t.actionDown, t.helm);
    UpgradeConcludes(req, d, e, t);
    made := e.(ran := Some(Upgrade), after := Execute(req, Upgrade, e.decided, t.actionDown, t.helm).world);
  }

  // ---------- The unlock ----------

  /** What is stored once a pending release is marked as failed. */
  function Freed(req: Request, sto: Storage): Storage {
    var last := Last(sto, req.spec.name);
    if last.Some? && IsLocked(last.value.status) then ApplyOne(sto, Put(Unlocked(last.value))) else sto
  }

  lemma UnlockTarget(req: Request, h: seq<Snapshot>, r: Release)
    requires Distinct(h) && h != [] && Latest(h).value.Targets(r.name, r.ns, r.version)
    ensures Previous(ObserveUnlock(req.canonical, h, r), IgnoreTests(req)) == Previous(h, IgnoreTests(req))
  {
    var i := FindTarget(h, r.name, r.ns, r.version);
    var k := LatestAt(h);
    LatestIsTop(h);
    assert i == k;
    ReplaceTopPrevious(h, i, Retake(req.canonical, r, h[i], h[i].action), IgnoreTests(req));
  }

  /** What an unlock does to a pending release. */
  lemma UnlockRuns(req: Request, w: World, helm: HelmRun)
    requires Jammed(req, w.storage) && !helm.failed
    ensures var r := Unlocked(Last(w.storage, req.spec.name).value);
            RunUnlock(req, w, false, helm)
              == Acted(World(w.status.(history := ObserveUnlock(req.canonical, w.status.history, r)), Freed(req, w.storage)), Ok)
  {
  }

  /** An unlock keeps the latest snapshot that of the last release, and the
      rollback target. */
  lemma UnlockFollows(req: Request, h: seq<Snapshot>, r: Release)
    requires Distinct(h) && h != [] && Mirrors(Latest(h).value, r)
    ensures var h' := ObserveUnlock(req.canonical, h, Unlocked(r));
            && h' != [] && Latest(h').Some? && Mirrors(Latest(h').value, Unlocked(r))
            && Previous(h', IgnoreTests(req)) == Previous(h, IgnoreTests(req))
  {
    UnlockLatest(req.canonical, h, Unlocked(r));
    UnlockTarget(req, h, Unlocked(r));
    RetakeMirrors(req.canonical, Unlocked(r), Latest(h).value, Latest(h).value.action, None);
  }

  /** An unlock leaves every older release as it is. */
  lemma FreedKeeps(req: Request, sto: Storage, version: int)
    requires WellKeyed(sto) && Jammed(req, sto) && version < Last(sto, req.spec.name).value.version
    ensures Get(Freed(req, sto), req.spec.name, version) == Get(sto, req.spec.name, version)
    ensures Last(Freed(req, sto), req.spec.name) == Some(Unlocked(Last(sto, req.spec.name).value))
  {
    LastGreatest(sto, req.spec.name);
    PutLast(sto, req.spec.name, Unlocked(Last(sto, req.spec.name).value));
  }

  /** The rollback target is of an older version. */
  lemma TargetIsOlder(req: Request, w: World, target: Release)
    requires Fallen(req, w, target)
    ensures target.name == req.spec.name && target.version < Last(w.storage, req.spec.name).value.version
  {
    PreviousFound(w.status.history, IgnoreTests(req));
    LatestIsTop(w.status.history);
    PreviousMember(w.status.history, IgnoreTests(req));
  }

  /** The pending release of an upgrade is unlocked as a failed one, with the same
      rollback target. */
  lemma UnlockMends(req: Request, w: World, target: Release, helm: HelmRun)
    requires Fallen(req, w, target) && Jammed(req, w.storage) && !helm.failed
    ensures var w' := RunUnlock(req, World(RememberForce(req, w.status), w.storage), false, helm).world;
            && Broken(req, w', target) && w'.storage == Freed(req, w.storage)
            && w'.status.upgradeFailures == w.status.upgradeFailures
  {
    var w1 := World(RememberForce(req, w.status), w.storage);
    UnlockAgrees(req, w1, false, helm);
    UnlockRuns(req, w1, helm);
    UnlockFollows(req, w.status.history, Last(w.storage, req.spec.name).value);
    TargetIsOlder(req, w, target);
    FreedKeeps(req, w.storage, target.version);
  }

  /** A turn in which nothing keeps a pending release from being unlocked. */
  ghost predicate Unlocks(t: Turn) {
    Calm(t) && !t.actionDown && !t.helm.failed
  }

  // ---------- The rollback ----------

  lemma BrokenIsFailed(req: Request, w: World, target: Release, diff: Diff)
    requires Broken(req, w, target)
    ensures Determine(req, w.status, w.storage, false, diff) == Some(Failed)
  {
  }

  /** The history as it is when the rollback starts: sorted and truncated. */
  lemma FallenTruncated(req: Request, w: World, target: Release)
    requires Fallen(req, w, target)
    ensures var h := Truncate(Sorted(w.status.history), IgnoreTests(req));
            && Fallen(req, World(RememberForce(req, w.status).(history := h), w.storage), target)
            && Sorted(h) == h
  {
    var h := w.status.history;
    SortedCoherent(h, w.storage, req.spec.name, req.spec.ns);
    LatestSorted(h);
    PreviousSorted(h, IgnoreTests(req));
    TruncateKeeps(Sorted(h), IgnoreTests(req));
    TruncatePrefix(Sorted(h), IgnoreTests(req));
    PrefixCoherent(Sorted(h), Truncate(Sorted(h), IgnoreTests(req)), w.storage, req.spec.name, req.spec.ns);
  }

  lemma FallenExhausted(req: Request, w: World, target: Release)
    requires Rolling(req) && Fallen(req, w, target)
    requires req.spec.upgradeRemediation.RetriesExhausted(w.status)
    requires !req.spec.upgradeRemediation.MustRemediateLastFailure()
    ensures ActionForState(req, w.status.(history := Sorted(w.status.history)), w.storage, Failed, false)
              == Decision(RememberForce(req, w.status).(history := Sorted(w.status.history)), Fail(ExceededMaxRetries))
  {
  }

  /** When no retries remain and the last failure is not to be remediated, a turn
      stops for good without running anything. */
  lemma TurnGivesUp(req: Request, w: World, target: Release, previous: seq<ReconcilerType>, t: Turn)
    requires Rolling(req) && Fallen(req, w, target) && Calm(t)
    requires Determine(req, w.status, w.storage, false, t.diff) == Some(Failed) && !IsLocked(Last(w.storage, req.spec.name).value.status)
    requires req.spec.upgradeRemediation.RetriesExhausted(w.status)
    requires !req.spec.upgradeRemediation.MustRemediateLastFailure()
    ensures var r := Turning(req, w, previous, t);
            && TurnOver(r) && r.last.value.decided == r.world
            && r.world == World(RememberForce(req, w.status).(history := Sorted(w.status.history)), w.storage)
  {
    FallenExhausted(req, w, target);
    var (d, e) := Decided(req, w, Failed, t);
    assert Turning(req, w, previous, t) == Proceed(req, d, e, previous, t);
  }

  /** Otherwise a turn decides to roll back. */
  lemma RollbackIsDecided(req: Request, w: World, target: Release)
    requires Rolling(req) && Fallen(req, w, target)
    requires !req.spec.upgradeRemediation.RetriesExhausted(w.status)
             || req.spec.upgradeRemediation.MustRemediateLastFailure()
    ensures var st := w.status.(history := Sorted(w.status.history));
            var d := ActionForState(req, st, w.storage, Failed, false);
            && d.next == Run(Rollback)
            && d.status == RememberForce(req, w.status).(history := Truncate(st.history, IgnoreTests(req)))
  {
    var st := w.status.(history := Sorted(w.status.history));
    PreviousSorted(w.status.history, IgnoreTests(req));
    TruncateKeepsPrevious(st.history, IgnoreTests(req));
    var prev := RollbackTarget(req, w.status);
    assert Matches(prev.value, target);
    MatchesVerifies(prev.value, target);
    assert VerifySnapshot(w.storage, prev, false) == Verified;
    assert ActiveRemediation(req, st) == Some(req.spec.upgradeRemediation) && !ActiveRetry(req, st);
  }

  /** Versions a rollback adds to the history come without a test record, in the
      current format. */
  lemma {:induction false} RollbackFresh(canonical: string, h: seq<Snapshot>, ws: seq<Write>)
    ensures forall s | s in ObserveAll(canonical, RollbackObserver, h, ws) ::
              s.version in Versions(h) || (!s.Legacy() && s.testHooks.None?)
  {
    if ws != [] {
      var init, r := ws[..|ws| - 1], ws[|ws| - 1].rls;
      RollbackFresh(canonical, h, init);
      var h1 := ObserveAll(canonical, RollbackObserver, h, init);
      var h2 := ObserveRollback(canonical, h1, r);
      var i := FindTarget(h1, r.name, r.ns, r.version);
      forall s | s in h2 ensures s.version in Versions(h) || (!s.Legacy() && s.testHooks.None?) {
        if i < |h1| {
          var j :| 0 <= j < |h2| && h2[j] == s;
          assert h1[j] in h1;
        }
      }
    }
  }

  lemma TargetOfSameRelease(h: seq<Snapshot>, name: string, ns: string, ignoreTests: bool)
    requires Named(h, name, ns) && h != [] && Previous(h, ignoreTests).Some?
    ensures Previous(h, ignoreTests).value.name == Latest(h).value.name
    ensures Previous(h, ignoreTests).value.ns == Latest(h).value.ns
  {
    PreviousMember(h, ignoreTests);
    LatestMember(h);
  }

  lemma RollbackRuns(req: Request, w: World, down: bool, helm: HelmRun)
    requires w.status.history != [] && Named(w.status.history, req.spec.name, req.spec.ns)
    requires RollbackTarget(req, w.status).Some? && !helm.failed
    ensures var h := ObserveAll(req.canonical, RollbackObserver, Sorted(w.status.history), helm.writes);
            Execute(req, Rollback, w, down, helm) == Acted(World(w.status.(history := h), Apply(w.storage, helm.writes)), Ok)
  {
    TargetOfSameRelease(w.status.history, req.spec.name, req.spec.ns, IgnoreTests(req));
  }

  /** The new release of a rollback is mirrored by a fresh snapshot on top. */
  lemma RollbackLatest(req: Request, h: seq<Snapshot>, sto: Storage, target: Release, helm: HelmRun)
    requires Coherent(req.spec.name, req.spec.ns, h, sto) && h != [] && RollsBack(req, sto, target, helm)
    ensures var h', sto' := ObserveAll(req.canonical, RollbackObserver, h, helm.writes), Apply(sto, helm.writes);
            && Coherent(req.spec.name, req.spec.ns, h', sto') && h' != []
            && Mirrors(Latest(h').value, Last(sto', req.spec.name).value)
            && Latest(h').value.testHooks.None?
  {
    var h' := ObserveAll(req.canonical, RollbackObserver, h, helm.writes);
    ObserveAllKeeps(req.canonical, RollbackObserver, h, sto, helm.writes, req.spec.name, req.spec.ns);
    RollbackFresh(req.canonical, h, helm.writes);
    LatestIsTop(h);
    LatestIsTop(h');
    assert Latest(h').value.version !in Versions(h);
  }

  /** A rollback that succeeds brings the release back to rest. */
  lemma RollbackRestores(req: Request, w: World, target: Release, down: bool, helm: HelmRun)
    requires Fallen(req, w, target) && Sorted(w.status.history) == w.status.history
    requires RollsBack(req, w.storage, target, helm)
    ensures var acted := Execute(req, Rollback, w, down, helm);
            && acted.result.Ok? && AtRest(req, acted.world) && acted.world.storage == Apply(w.storage, helm.writes)
            && acted.world.status == w.status.(history := acted.world.status.history)
  {
    RollbackRuns(req, w, down, helm);
    RollbackLatest(req, w.status.history, w.storage, target, helm);
  }

  lemma RollbackConcludes(req: Request, d: Decision, e: Event, previous: seq<ReconcilerType>, t: Turn)
    requires Rolling(req) && Calm(t) && d.next == Run(Rollback) && e.ran.None? && TypeRemediate !in previous
    requires e.decided.status.lastAction == ActionUpgrade
    requires var acted := Execute(req, Rollback, e.decided, t.actionDown, t.helm);
             acted.result.Ok? && acted.world.status == e.decided.status.(history := acted.world.status.history)
    ensures var acted, r := Execute(req, Rollback, e.decided, t.actionDown, t.helm), Proceed(req, d, e, previous, t);
            && r.Stop? && r.last.Some? && r.last.value.ran == Some(Rollback) && r.world == acted.world
            && r.result == Failure(if req.spec.upgradeRemediation.RetriesExhausted(e.decided.status) then ExceededMaxRetries
                                   else MustRequeue)
  {
  }

  lemma TurnRollsBack(req: Request, w: World, target: Release, previous: seq<ReconcilerType>, t: Turn)
    requires Rolling(req) && Fallen(req, w, target) && Calm(t) && RollsBack(req, w.storage, target, t.helm)
    requires Determine(req, w.status, w.storage, false, t.diff) == Some(Failed) && !IsLocked(Last(w.storage, req.spec.name).value.status)
    requires TypeRemediate !in previous
    requires !req.spec.upgradeRemediation.RetriesExhausted(w.status)
             || req.spec.upgradeRemediation.MustRemediateLastFailure()
    ensures var r := Turning(req, w, previous, t);
            && r.Stop? && r.last.Some? && r.last.value.ran == Some(Rollback)
            && r.result == Failure(if req.spec.upgradeRemediation.RetriesExhausted(w.status) then ExceededMaxRetries else MustRequeue)
            && AtRest(req, r.world) && r.world.storage == Apply(w.storage, t.helm.writes)
            && r.world.status == RememberForce(req, w.status).(history := r.world.status.history)
  {
    RollbackIsDecided(req, w, target);
    FallenTruncated(req, w, target);
    var w1 := World(RememberForce(req, w.status).(history := Truncate(Sorted(w.status.history), IgnoreTests(req))), w.storage);
    var (d, e) := Decided(req, w, Failed, t);
    assert Turning(req, w, previous, t) == Proceed(req, d, e, previous, t);
    RollbackRestores(req, w1, target, t.actionDown, t.helm);
    RollbackConcludes(req, d, e, previous, t);
  }

  // ---------- The last turn of an attempt ----------

  /** Whether the failure that makes the count `n` is rolled back. */
  predicate RolledBack(req: Request, n: int) {
    n <= req.spec.upgradeRemediation.retries || req.spec.upgradeRemediation.MustRemediateLastFailure()
  }

  /** What is left when an upgrade has used up its retries without a rollback. */
  ghost predicate GivenUp(req: Request, w: World) {
    exists target :: Broken(req, w, target)
  }

  /** The release between attempts, with `n` failures counted. */
  ghost predicate Between(req: Request, w: World, n: nat) {
    if n == 0 || RolledBack(req, n) then AtRest(req, w) else GivenUp(req, w)
  }

  /** A turn that runs nothing because the retries are used up. */
  ghost predicate TurnOver(r: Turned) {
    r.Stop? && r.last.Some? && r.last.value.ran.None? && r.result == Failure(ExceededMaxRetries)
  }

  lemma FallenSorted(req: Request, w: World, target: Release)
    requires Fallen(req, w, target)
    ensures Fallen(req, World(RememberForce(req, w.status).(history := Sorted(w.status.history)), w.storage), target)
  {
    SortedCoherent(w.status.history, w.storage, req.spec.name, req.spec.ns);
    LatestSorted(w.status.history);
    PreviousSorted(w.status.history, IgnoreTests(req));
  }

  lemma BrokenSorted(req: Request, w: World, target: Release)
    requires Broken(req, w, target)
    ensures Broken(req, World(RememberForce(req, w.status).(history := Sorted(w.status.history)), w.storage), target)
  {
    FallenSorted(req, w, target);
  }

  /** The turn after failure number `n` ends the attempt: by a rollback if retries
      remain or the last failure must be remediated, and for good exactly if
      none remain. */
  ghost predicate Remedied(req: Request, n: nat, r: Turned) {
    && r.Stop? && r.last.Some?
    && r.last.value.ran == (if RolledBack(req, n) then Some(Rollback) else None)
    && r.result == Failure(if n <= req.spec.upgradeRemediation.retries then MustRequeue else ExceededMaxRetries)
    && Between(req, r.world, n) && r.world.status.upgradeFailures == n && r.world.status.lastAction == ActionUpgrade
  }

  lemma RemedyTurn(req: Request, w: World, target: Release, previous: seq<ReconcilerType>, t: Turn, n: nat)
    requires Plain(req) && Broken(req, w, target) && Calm(t) && w.status.upgradeFailures == n && TypeRemediate !in previous
    requires RolledBack(req, n) ==> RollsBack(req, w.storage, target, t.helm)
    ensures Remedied(req, n, Turning(req, w, previous, t))
  {
    BrokenIsFailed(req, w, target, t.diff);
    if RolledBack(req, n) {
      TurnRollsBack(req, w, target, previous, t);
    } else {
      TurnGivesUp(req, w, target, previous, t);
      BrokenSorted(req, w, target);
    }
  }

  // ---------- One attempt ----------

  /** What remains of attempt number `n` once it has left storage `sto`: a pending
      release can be unlocked, and a rollback, if there is one, succeeds. */
  ghost predicate Remediates(req: Request, n: nat, sto: Storage, target: Release, env: nat -> Turn) {
    && (Jammed(req, sto) ==> Unlocks(env(1)))
    && var t := env(if Jammed(req, sto) then 2 else 1);
    && Calm(t) && (RolledBack(req, n) ==> RollsBack(req, Freed(req, sto), target, t.helm))
  }

  /** The environment of attempt number `n`, in which the upgrade fails after
      writing and the failure can be remediated. */
  ghost predicate Adverse(req: Request, n: nat, w: World, env: nat -> Turn) {
    && Calm(env(0)) && FailsAfterWriting(req, w.storage, env(0).helm)
    && Remediates(req, n, Apply(w.storage, env(0).helm.writes), LeftOf(req, w.storage, env(0).helm).value, env)
  }

  /** The attempt runs `first`, unlocks the release if `first` left it pending, and
      ends with `last`, or with nothing. */
  ghost predicate RunsThen(req: Request, o: Outcome, first: Action, last: Option<Action>) {
    && o.events != [] && o.events[0].ran == Some(first)
    && (if Jammed(req, o.events[0].after.storage)
        then |o.events| == 3 && o.events[1].ran == Some(Unlock) && o.events[2].ran == last
        else |o.events| == 2 && o.events[1].ran == last)
  }

  /** One attempt upgrades once, rolls back if retries remain or the last failure
      must be remediated, and is the last one exactly if none remain. */
  ghost predicate OneUpgrade(req: Request, n: int, o: Outcome) {
    && RunsThen(req, o, Upgrade, if RolledBack(req, n) then Some(Rollback) else None)
    && o.result == Failure(if n <= req.spec.upgradeRemediation.retries then MustRequeue else ExceededMaxRetries)
  }

  /** The outcome of an attempt that failed and was then remedied, or not. */
  ghost predicate FailedOnce(req: Request, n: nat, o: Outcome) {
    OneUpgrade(req, n, o) && Between(req, o.world, n) && o.world.status.upgradeFailures == n && o.world.status.lastAction == ActionUpgrade
  }

  /** What comes after the upgrade of an attempt. */
  ghost predicate EndsAttempt(req: Request, n: nat, jam: bool, o: Outcome) {
    && |o.events| == (if jam then 2 else 1) && (jam ==> o.events[0].ran == Some(Unlock))
    && Remedied(req, n, Stop(Some(o.events[|o.events| - 1]), o.world, o.result))
  }

  lemma UnlockedBefore(req: Request, n: nat, u: Event, rest: Outcome)
    requires u.ran == Some(Unlock) && EndsAttempt(req, n, false, rest)
    ensures EndsAttempt(req, n, true, Outcome([u] + rest.events, rest.world, rest.result))
  {
  }

  lemma UpgradedBefore(req: Request, n: nat, e: Event, rest: Outcome)
    requires e.ran == Some(Upgrade) && EndsAttempt(req, n, Jammed(req, e.after.storage), rest)
    ensures FailedOnce(req, n, Outcome([e] + rest.events, rest.world, rest.result))
  {
  }

  lemma FailedThen(req: Request, w: World, target: Release, previous: seq<ReconcilerType>, env: nat -> Turn, k: nat, n: nat)
    requires Plain(req) && Broken(req, w, target) && w.status.upgradeFailures == n
    requires Calm(env(k)) && TypeRemediate !in previous
    requires RolledBack(req, n) ==> RollsBack(req, w.storage, target, env(k).helm)
    ensures EndsAttempt(req, n, false, Reconciling(req, w, previous, env, k))
  {
    RemedyTurn(req, w, target, previous, env(k), n);
    var r := Turning(req, w, previous, env(k));
    OneTurnFrom(req, w, previous, env, k, r.last.value, r.world, r.result);
  }

  /** The turn that unlocks a pending release. */
  lemma JammedTurn(req: Request, w: World, target: Release, t: Turn) returns (u: Event)
    requires Fallen(req, w, target) && Jammed(req, w.storage) && Unlocks(t)
    ensures Turning(req, w, [TypeRelease], t) == Go(u) && u.ran == Some(Unlock)
    ensures Broken(req, u.after, target) && u.after.storage == Freed(req, w.storage)
    ensures u.after.status.upgradeFailures == w.status.upgradeFailures
  {
    LockedIsUnlockedFirst(req, w, [TypeRelease], t);
    UnlockMends(req, w, target, t.helm);
    u := Turning(req, w, [TypeRelease], t).event;
  }

  /** An unlock before the last turn of an attempt. */
  lemma UnlockThen(req: Request, w: World, env: nat -> Turn, n: nat, u: Event)
    requires Turning(req, w, [TypeRelease], env(1)) == Go(u) && u.ran == Some(Unlock)
    requires EndsAttempt(req, n, false, Reconciling(req, u.after, [TypeRelease, TypeUnlock], env, 2))
    ensures EndsAttempt(req, n, true, Reconciling(req, w, [TypeRelease], env, 1))
  {
    var rest := Reconciling(req, u.after, [TypeRelease, TypeUnlock], env, 2);
    ReleaseThenUnlock();
    GoThen(req, w, [TypeRelease], env, 1, u, Unlock, [TypeRelease, TypeUnlock], rest);
    UnlockedBefore(req, n, u, rest);
  }

  lemma JammedThen(req: Request, w: World, target: Release, env: nat -> Turn, n: nat)
    requires Plain(req) && Fallen(req, w, target) && Jammed(req, w.storage) && w.status.upgradeFailures == n
    requires Remediates(req, n, w.storage, target, env)
    ensures EndsAttempt(req, n, true, Reconciling(req, w, [TypeRelease], env, 1))
  {
    var u := JammedTurn(req, w, target, env(1));
    FailedThen(req, u.after, target, [TypeRelease, TypeUnlock], env, 2, n);
    UnlockThen(req, w, env, n, u);
  }

  /** What comes after an upgrade that failed after writing. */
  lemma FallenThen(req: Request, w: World, target: Release, env: nat -> Turn, n: nat)
    requires Plain(req) && Fallen(req, w, target) && w.status.upgradeFailures == n && Remediates(req, n, w.storage, target, env)
    requires Jammed(req, w.storage) || Last(w.storage, req.spec.name).value.status == StatusFailed
    ensures EndsAttempt(req, n, Jammed(req, w.storage), Reconciling(req, w, [TypeRelease], env, 1))
  {
    if Jammed(req, w.storage) {
      JammedThen(req, w, target, env, n);
    } else {
      FailedThen(req, w, target, [TypeRelease], env, 1, n);
    }
  }

  lemma AttemptEnds(req: Request, w: World, env: nat -> Turn, e: Event, n: nat)
    requires Turning(req, w, [], env(0)) == Go(e) && e.ran == Some(Upgrade)
    requires EndsAttempt(req, n, Jammed(req, e.after.storage), Reconciling(req, e.after, [TypeRelease], env, 1))
    ensures FailedOnce(req, n, Reconcile(req, w, env))
  {
    var rest := Reconciling(req, e.after, [TypeRelease], env, 1);
    FirstThen(req, w, env, e, TypeRelease, rest);
    UpgradedBefore(req, n, e, rest);
  }

  lemma AttemptExact(req: Request, w: World, env: nat -> Turn, n: nat)
    requires Plain(req) && AtRest(req, w) && Adverse(req, n, w, env)
    requires w.status.upgradeFailures == n - 1 && 0 < n <= req.spec.upgradeRemediation.retries + 1
    ensures FailedOnce(req, n, Reconcile(req, w, env))
  {
    var e := FirstTurn(req, w, env(0));
    FallenThen(req, e.after, LeftOf(req, w.storage, env(0).helm).value, env, n);
    AttemptEnds(req, w, env, e, n);
  }

  // ---------- The whole campaign ----------

  /** The attempt is at the request, does not crash, and meets an adverse
      environment. */
  ghost predicate Meets(req: Request, n: nat, w: World, a: Attempt) {
    a.req == req && a.crash.None? && Adverse(req, n, w, a.env)
  }

  /** Attempt number `n`, counting from 1, meets the environment of that number. */
  ghost predicate AllAdverse(req: Request, w: World, attempts: seq<Attempt>) {
    attempts != [] ==>
      var init, a := attempts[..|attempts| - 1], attempts[|attempts| - 1];
      AllAdverse(req, w, init) && Meets(req, |attempts|, After(w, init), a)
  }

  /** The world before attempt number `i`, counting from 0. */
  ghost predicate Underway(req: Request, w: World, i: nat) {
    && w.status.upgradeFailures == i
    && (i > 0 ==> Settled(req, w.status) && w.status.lastAction == ActionUpgrade)
    && Between(req, w, i)
  }

  lemma PreparedUnderway(req: Request, w: World, i: nat)
    requires Underway(req, w, i)
    ensures Underway(req, World(Prepare(req, w.status), w.storage), i)
  {
  }

  /** The token of a request to reconcile has no part in the state of the release. */
  lemma HandledBetween(req: Request, w: World, i: nat)
    requires Between(req, w, i)
    ensures Between(req, World(Handled(req, w.status), w.storage), i)
  {
    var w' := World(Handled(req, w.status), w.storage);
    if i > 0 && !RolledBack(req, i) {
      var target :| Broken(req, w, target);
      assert Broken(req, w', target);
    }
  }

  /** What survives an attempt that failed. */
  lemma FailedUnderway(w: World, a: Attempt, n: nat)
    requires FailedOnce(a.req, n, Attempted(w, a)) && a.crash.None? && n > 0
    ensures Underway(a.req, Survives(w, a), n)
  {
    HandledBetween(a.req, Attempted(w, a).world, n);
    AttemptSettled(w, a);
  }

  lemma AttemptUnderway(req: Request, w: World, n: nat, a: Attempt)
    requires Plain(req) && 0 < n <= req.spec.upgradeRemediation.retries + 1
    requires Underway(req, w, n - 1) && Meets(req, n, w, a)
    ensures OneUpgrade(req, n, Attempted(w, a)) && Underway(req, Survives(w, a), n)
  {
    PreparedUnderway(req, w, n - 1);
    AttemptExact(req, World(Prepare(req, w.status), w.storage), a.env, n);
    FailedUnderway(w, a, n);
  }

  /** Attempt number `n`, counting from 1, is an upgrade with `n` failures. */
  ghost predicate EachUpgrades(req: Request, w: World, attempts: seq<Attempt>) {
    attempts != [] ==>
      var init, a := attempts[..|attempts| - 1], attempts[|attempts| - 1];
      EachUpgrades(req, w, init) && OneUpgrade(req, |attempts|, Attempted(After(w, init), a))
  }

  lemma {:induction false} CampaignUnderway(req: Request, w: World, attempts: seq<Attempt>)
    requires Plain(req) && Underway(req, w, 0) && AllAdverse(req, w, attempts)
    requires |attempts| <= req.spec.upgradeRemediation.retries + 1
    ensures Underway(req, After(w, attempts), |attempts|) && EachUpgrades(req, w, attempts)
  {
    if attempts != [] {
      var init, a := attempts[..|attempts| - 1], attempts[|attempts| - 1];
      CampaignUnderway(req, w, init);
      AttemptUnderway(req, After(w, init), |attempts|, a);
    }
  }

  // ---------- After the campaign ----------

  /** Attempts at the same request that nothing interferes with, other than
      crashes. */
  ghost predicate Later(req: Request, attempts: seq<Attempt>) {
    forall a | a in attempts :: a.req == req && Calm(a.env(0))
  }

  /** An attempt that runs nothing because no retries remain. */
  ghost predicate Over(o: Outcome) {
    |o.events| == 1 && o.events[0].ran.None? && o.result == Failure(ExceededMaxRetries)
  }

  ghost predicate AllOver(w: World, attempts: seq<Attempt>) {
    attempts != [] ==>
      var init, a := attempts[..|attempts| - 1], attempts[|attempts| - 1];
      AllOver(w, init) && Over(Attempted(After(w, init), a))
  }

  lemma ExhaustedAtRest(req: Request, w: World, t: Turn)
    requires AtRest(req, w) && Calm(t) && w.status.lastAction == ActionUpgrade
    requires req.spec.upgradeRemediation.RetriesExhausted(w.status)
    ensures var r := Turning(req, w, [], t);
            && TurnOver(r) && r.last.value.decided == r.world
            && r.world == World(RememberForce(req, w.status.(history := Sorted(w.status.history))), w.storage)
  {
    RestIsOutOfSync(req, w, t.diff);
  }

  /** A turn with no retries left changes nothing that matters. */
  lemma ExhaustedTurn(req: Request, w: World, t: Turn)
    requires Plain(req) && Underway(req, w, req.spec.upgradeRemediation.retries + 1) && Calm(t)
    ensures var r := Turning(req, w, [], t);
            && TurnOver(r) && r.last.value.decided == r.world
            && Underway(req, r.world, req.spec.upgradeRemediation.retries + 1)
  {
    if RolledBack(req, req.spec.upgradeRemediation.retries + 1) {
      ExhaustedAtRest(req, w, t);
      RestSorted(req, w);
    } else {
      var target :| Broken(req, w, target);
      BrokenIsFailed(req, w, target, t.diff);
      TurnGivesUp(req, w, target, [], t);
      BrokenSorted(req, w, target);
    }
  }

  /** A turn that runs nothing and stops leaves the same world, crash or not. */
  lemma StoppedAttempt(w: World, a: Attempt)
    requires var r := Turning(a.req, World(Prepare(a.req, w.status), w.storage), [], a.env(0));
             TurnOver(r) && r.last.value.decided == r.world
    ensures var w' := Turning(a.req, World(Prepare(a.req, w.status), w.storage), [], a.env(0)).world;
            Over(Attempted(w, a)) && Survives(w, a) in {w', World(Handled(a.req, w'.status), w'.storage)}
  {
    var r := Turning(a.req, World(Prepare(a.req, w.status), w.storage), [], a.env(0));
    OneTurn(a.req, World(Prepare(a.req, w.status), w.storage), a.env, r.last.value, r.world, r.result);
  }

  lemma AttemptOver(req: Request, w: World, a: Attempt)
    requires Plain(req) && Underway(req, w, req.spec.upgradeRemediation.retries + 1)
    requires a.req == req && Calm(a.env(0))
    ensures Over(Attempted(w, a)) && Underway(req, Survives(w, a), req.spec.upgradeRemediation.retries + 1)
  {
    var w', n := World(Prepare(req, w.status), w.storage), req.spec.upgradeRemediation.retries + 1;
    PreparedUnderway(req, w, n);
    ExhaustedTurn(req, w', a.env(0));
    StoppedAttempt(w, a);
    HandledBetween(req, Turning(req, w', [], a.env(0)).world, n);
  }

  lemma {:induction false} CampaignOver(req: Request, w: World, later: seq<Attempt>)
    requires Plain(req) && Underway(req, w, req.spec.upgradeRemediation.retries + 1) && Later(req, later)
    ensures AllOver(w, later) && Underway(req, After(w, later), req.spec.upgradeRemediation.retries + 1)
  {
    if later != [] {
      var init, a := later[..|later| - 1], later[|later| - 1];
      assert a in later;
      CampaignOver(req, w, init);
      AttemptOver(req, After(w, init), a);
    }
  }

  /** From a managed, deployed, out-of-sync release with no upgrade failures, if
      every upgrade fails after writing and every rollback succeeds, then each
      of the first `retries` attempts upgrades, rolls back and asks for another
      attempt; attempt number `retries + 1` upgrades, rolls back exactly if the
      last failure must be remediated, and exceeds the retries; and none of any
      number of later attempts runs anything. */
  lemma ExactUpgradeBudget(req: Request, w: World, attempts: seq<Attempt>)
    requires Plain(req) && AtRest(req, w) && w.status.upgradeFailures == 0
    requires AllAdverse(req, w, attempts) && |attempts| == req.spec.upgradeRemediation.retries + 1
    ensures EachUpgrades(req, w, attempts)
    ensures forall later | Later(req, later) :: AllOver(After(w, attempts), later)
  {
    CampaignUnderway(req, w, attempts);
    forall later | Later(req, later) ensures AllOver(After(w, attempts), later) {
      CampaignOver(req, After(w, attempts), later);
    }
  }

  // ---------- Such campaigns exist ----------

  const CALM := Turn(false, None, false, Unchanged, false, false, true, false, HelmRun([], false, None), true)

  /** One more release, as Helm writes it on top of `r`. */
  function Above(r: Release, status: HelmStatus): Release {
    r.(version := r.version + 1, status := status)
  }

  /** Writes that end with a release of a new greatest version. */
  lemma PutOnTop(req: Request, sto: Storage, ws: seq<Write>, r: Release)
    requires StoreNamed(sto, req.spec.name, req.spec.ns) && r.name == req.spec.name && r.ns == req.spec.ns
    requires AllOurs(ws, req.spec.name, req.spec.ns) && forall x | x in ws :: x.rls.version < r.version
    requires Last(sto, req.spec.name).Some? ==> r.version > Last(sto, req.spec.name).value.version
    ensures var ws' := ws + [Put(r)];
            && Apply(sto, ws') == ApplyOne(Apply(sto, ws), Put(r)) && StoreNamed(Apply(sto, ws'), req.spec.name, req.spec.ns)
            && Last(Apply(sto, ws'), req.spec.name) == Some(r) && NewTop(req.spec.name, req.spec.ns, sto, ws')
  {
    var name, ws', sto1 := req.spec.name, ws + [Put(r)], Apply(sto, ws);
    assert ws'[..|ws|] == ws;
    ApplyNamed(sto, ws', name, req.spec.ns);
    forall k | k in sto && k.name == name ensures k.version < r.version {
      assert k.version in StoredVersions(sto, name);
      LastGreatest(sto, name);
    }
    forall k | k in Apply(sto, ws') && k.name == name ensures k.version <= r.version {
      AppliedKeys(sto, ws', k);
    }
    LastIs(Apply(sto, ws'), name, r.version);
  }

  lemma Undeleted(req: Request, sto: Storage, ws: seq<Write>, version: int)
    requires AllOurs(ws, req.spec.name, req.spec.ns) && forall x | x in ws :: x.rls.version != version
    ensures Get(Apply(sto, ws), req.spec.name, version) == Get(sto, req.spec.name, version)
  {
    ObserveKeys(ws);
    StoredAsObserved(sto, ws, req.spec.name, req.spec.ns, version);
  }

  lemma FailureExists(req: Request, sto: Storage, pruned: seq<Write>, jam: bool) returns (helm: HelmRun)
    requires StoreNamed(sto, req.spec.name, req.spec.ns) && AllOurs(pruned, req.spec.name, req.spec.ns)
    requires Last(sto, req.spec.name).Some? && Last(sto, req.spec.name).value.status == Deployed
    requires forall x | x in pruned :: x.Del? && x.rls.version < Last(sto, req.spec.name).value.version
    ensures FailsAfterWriting(req, sto, helm) && LeftOf(req, sto, helm) == Last(sto, req.spec.name)
    ensures Jammed(req, Apply(sto, helm.writes)) == jam && pruned < helm.writes
  {
    LastGreatest(sto, req.spec.name);
    var r := Last(sto, req.spec.name).value;
    var failed := Above(r, if jam then PendingUpgrade else StatusFailed);
    helm := HelmRun(pruned + [Put(failed)], true, None);
    PutOnTop(req, sto, pruned, failed);
    Undeleted(req, sto, helm.writes, r.version);
  }

  /** Every release at rest can meet an upgrade that deletes any older releases,
      as a limited history makes it do, and fails, leaving its release failed or
      pending, and a rollback that succeeds. */
  lemma AdverseExists(req: Request, n: nat, w: World, pruned: seq<Write>, jam: bool) returns (env: nat -> Turn)
    requires AtRest(req, w) && AllOurs(pruned, req.spec.name, req.spec.ns)
    requires forall x | x in pruned :: x.Del? && x.rls.version < Last(w.storage, req.spec.name).value.version
    ensures Adverse(req, n, w, env) && pruned < env(0).helm.writes
    ensures Jammed(req, Apply(w.storage, env(0).helm.writes)) == jam
  {
    var helm := FailureExists(req, w.storage, pruned, jam);
    LastGreatest(w.storage, req.spec.name);
    ApplyNamed(w.storage, helm.writes, req.spec.name, req.spec.ns);
    FreedNamed(req, Apply(w.storage, helm.writes));
    var t0 := CALM.(helm := helm);
    var t1 := RollbackExists(req, Freed(req, Apply(w.storage, helm.writes)), Last(w.storage, req.spec.name).value);
    env := (n: nat) => if n == 0 then t0 else t1;
  }

  lemma FreedNamed(req: Request, sto: Storage)
    requires StoreNamed(sto, req.spec.name, req.spec.ns) && Last(sto, req.spec.name).Some?
    ensures StoreNamed(Freed(req, sto), req.spec.name, req.spec.ns) && Last(Freed(req, sto), req.spec.name).Some?
    ensures Last(Freed(req, sto), req.spec.name).value.version == Last(sto, req.spec.name).value.version
  {
    LastGreatest(sto, req.spec.name);
    PutLast(sto, req.spec.name, Unlocked(Last(sto, req.spec.name).value));
  }

  lemma RollbackExists(req: Request, sto: Storage, target: Release) returns (t: Turn)
    requires StoreNamed(sto, req.spec.name, req.spec.ns) && Last(sto, req.spec.name).Some?
    requires target.name == req.spec.name && target.ns == req.spec.ns
    ensures Unlocks(t) && RollsBack(req, sto, target, t.helm)
  {
    var back := target.(version := Last(sto, req.spec.name).value.version + 1, status := Deployed);
    PutOnTop(req, sto, [], back);
    assert [] + [Put(back)] == [Put(back)] && [Put(back)][..0] == [];
    assert TameWrite(RollbackObserver, req.spec.name, req.spec.ns, sto, Put(back));
    t := CALM.(helm := HelmRun([Put(back)], false, None));
  }

  lemma OneMore(req: Request, w: World, init: seq<Attempt>, a: Attempt)
    requires AllAdverse(req, w, init) && Meets(req, |init| + 1, After(w, init), a)
    ensures AllAdverse(req, w, init + [a])
  {
    assert (init + [a])[..|init|] == init;
  }

  lemma UnderwayAtRest(req: Request, w: World, i: nat)
    requires Underway(req, w, i) && i <= req.spec.upgradeRemediation.retries
    ensures AtRest(req, w)
  {
  }

  /** So the budget is about campaigns that there are. */
  lemma {:induction false} CampaignExists(req: Request, w: World, n: nat, jam: bool) returns (attempts: seq<Attempt>)
    requires Plain(req) && AtRest(req, w) && w.status.upgradeFailures == 0 && n <= req.spec.upgradeRemediation.retries + 1
    ensures AllAdverse(req, w, attempts) && |attempts| == n
  {
    attempts := [];
    if n > 0 {
      var init := CampaignExists(req, w, n - 1, jam);
      CampaignUnderway(req, w, init);
      UnderwayAtRest(req, After(w, init), n - 1);
      var env := AdverseExists(req, n, After(w, init), [], jam);
      OneMore(req, w, init, Attempt(req, env, None));
      attempts := init + [Attempt(req, env, None)];
    }
  }
}
