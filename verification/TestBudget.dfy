/** The exact retry budget of upgrades whose tests fail: the upgrade itself always
    succeeds, and is rolled back because of its tests. */
module TestBudget {
  import opened Api
  import opened Snapshots
  import opened Releases
  import opened Recording
  import opened Requests
  import opened State
  import opened Actions
  import opened AtomicRelease
  import opened Runs
  import opened Coherence
  import opened Tidiness
  import opened Completion
  import opened UpgradeBudget
  import C = Classification
  import Outcomes

  /** Tests are on and their failures count, upgrades are remediated by rollback,
      and retries are limited. */
  ghost predicate Testing(req: Request) {
    req.spec.testEnable && !IgnoreTests(req) && Rolling(req)
  }

  /** The release has another chart or other values than those asked for. */
  ghost predicate Differs(req: Request, r: Release) {
    r.chartName != req.chartName || r.chartVersion != req.chartVersion || r.config != req.values
  }

  /** A managed, deployed release of another chart or with other values, that can be
      rolled back to. */
  ghost predicate Waiting(req: Request, w: World) {
    AtRest(req, w) && Differs(req, Last(w.storage, req.spec.name).value)
  }

  /** Helm makes the release asked for, and leaves the one it replaces deployed or
      superseded. */
  ghost predicate Succeeds(req: Request, sto: Storage, helm: HelmRun) {
    && Fulfils(req, sto, helm) && Last(sto, req.spec.name).Some? && LeftOf(req, sto, helm).Some?
    && var before, left := Last(sto, req.spec.name).value, LeftOf(req, sto, helm).value;
    && (left.status == Deployed || left.status == Superseded) && left.config == before.config
    && left.chartName == before.chartName && left.chartVersion == before.chartVersion
  }

  // ---------- The upgrade ----------

  /** After a successful upgrade: its release is deployed as asked, on top of the
      history, with the one before as the rollback target. */
  ghost predicate Upgraded(req: Request, w: World, target: Release) {
    && Agrees(req, w) && w.status.history != []
    && Wanted(req, Latest(w.status.history), Last(w.storage, req.spec.name)) && w.status == ObserveSpec(req, w.status)
    && Get(w.storage, target.name, target.version) == Some(target) && Differs(req, target)
    && var prev := RollbackTarget(req, w.status);
    && prev.Some? && Mirrors(prev.value, target)
    && w.status.lastAction == ActionUpgrade && !ForceRequested(req, w.status)
  }

  /** The same, before its tests were run. */
  ghost predicate Fresh(req: Request, w: World, target: Release) {
    Upgraded(req, w, target) && Latest(w.status.history).value.testHooks.None?
  }

  /** The same, after some of them have failed. */
  ghost predicate Unsound(req: Request, w: World, target: Release) {
    Upgraded(req, w, target) && C.SomeTestFailed(Latest(w.status.history).value) && w.status.upgradeFailures > 0
  }

  lemma UpgradeSucceeds(req: Request, w: World, down: bool, helm: HelmRun)
    requires Testing(req) && Waiting(req, w) && Succeeds(req, w.storage, helm)
    ensures var acted := Execute(req, Upgrade, w, down, helm);
            && acted.result.Ok? && Fresh(req, acted.world, LeftOf(req, w.storage, helm).value)
            && acted.world.status.upgradeFailures == w.status.upgradeFailures
            && acted.world.storage == Apply(w.storage, helm.writes)
  {
    ReleaseFulfils(req, Upgrade, w, down, helm);
    ReleaseAgrees(req, Upgrade, w, down, helm);
    Outcomes.ReleaseContract(req, Upgrade, w, down, helm);
    UpgradeRecords(req, w, down, helm);
    LeftIsStored(req, w.storage, helm);
  }

  lemma LeftIsStored(req: Request, sto: Storage, helm: HelmRun)
    requires WellKeyed(sto) && Succeeds(req, sto, helm) && Differs(req, Last(sto, req.spec.name).value)
    ensures var left := LeftOf(req, sto, helm).value;
            Get(Apply(sto, helm.writes), left.name, left.version) == Some(left) && Differs(req, left)
  {
    LastGreatest(sto, req.spec.name);
    ApplyWellKeyed(sto, helm.writes);
  }

  /** What a successful upgrade leaves recorded of the old and the new release. */
  lemma UpgradeRecords(req: Request, w: World, down: bool, helm: HelmRun)
    requires AtRest(req, w) && Succeeds(req, w.storage, helm)
    ensures var h := Execute(req, Upgrade, w, down, helm).world.status.history;
            && h != [] && Latest(h).value.testHooks.None?
            && Previous(h, IgnoreTests(req)).Some?
            && Mirrors(Previous(h, IgnoreTests(req)).value, LeftOf(req, w.storage, helm).value)
  {
    var oci := w.status.lastAttemptedRevisionDigest;
    TargetAfterUpgrade(req, w.status.history, w.storage, helm.writes, oci);
    var h' := Record(req.canonical, Observe(helm.writes), w.status.history, oci, ActionUpgrade);
    LatestSorted(h');
    PreviousSorted(h', IgnoreTests(req));
    SortedLength(h');
  }

  /** With retries left, the first turn upgrades, and goes on. */
  lemma UpgradeTurn(req: Request, w: World, t: Turn) returns (made: Event)
    requires Testing(req) && Waiting(req, w) && Calm(t) && Succeeds(req, w.storage, t.helm)
    requires !req.spec.upgradeRemediation.RetriesExhausted(w.status)
    ensures Turning(req, w, [], t) == Go(made) && made.ran == Some(Upgrade)
    ensures Fresh(req, made.after, LeftOf(req, w.storage, t.helm).value)
    ensures made.after.status.upgradeFailures == w.status.upgradeFailures
    ensures made.after.storage == Apply(w.storage, t.helm.writes)
  {
    RestIsOutOfSync(req, w, t.diff);
    RestDecided(req, w, t);
    RestSorted(req, w);
    var (d, e) := Decided(req, w, OutOfSync, t);
    assert Turning(req, w, [], t) == Proceed(req, d, e, [], t);
    UpgradeSucceeds(req, e.decided, t.actionDown, t.helm);
    UpgradeConcludes(req, d, e, t);
    made := e.(ran := Some(Upgrade), after := Execute(req, Upgrade, e.decided, t.actionDown, t.helm).world);
  }

  // ---------- The test ----------

  /** Helm runs the tests of the last release and reports that one of those selected
      failed. It writes the results, and leaves the release as it is otherwise,
      and the rollback target alone. */
  ghost predicate FailsTests(req: Request, sto: Storage, target: Release, helm: HelmRun) {
    && helm.failed && Behaved(req, Test, sto, helm) && Last(sto, req.spec.name).Some?
    && Last(sto, req.spec.name).value.version in Observe(helm.writes)
    && var last := Last(Apply(sto, helm.writes), req.spec.name);
    && last.Some? && last.value.status == Deployed && !Differs(req, last.value)
    && (exists k | k in SelectedTests(last.value.hooks, req.spec.testFilters) ::
          SelectedTests(last.value.hooks, req.spec.testFilters)[k] == PhaseFailed)
    && Get(Apply(sto, helm.writes), target.name, target.version) == Some(target)
  }

  /** The latest snapshot follows its release through its tests, and has the results
      once they are written. */
  ghost predicate FollowsTests(h: seq<Snapshot>, last: Option<Release>, filters: seq<Filter>, written: bool) {
    && h != [] && last.Some? && Latest(h).Some? && Mirrors(Latest(h).value, last.value)
    && (written ==> Latest(h).value.testHooks == Some(SelectedTests(last.value.hooks, filters)))
  }

  lemma TestFollowsOne(req: Request, h: seq<Snapshot>, sto: Storage, w: Write, written: bool)
    requires Coherent(req.spec.name, req.spec.ns, h, sto)
    requires TameWrite(TestObserver(req.spec.testFilters), req.spec.name, req.spec.ns, sto, w)
    requires FollowsTests(h, Last(sto, req.spec.name), req.spec.testFilters, written)
    ensures var h', sto' := ObserveTest(req.canonical, h, w.rls, req.spec.testFilters), ApplyOne(sto, w);
            && FollowsTests(h', Last(sto', req.spec.name), req.spec.testFilters,
                            written || w.rls.version == Last(sto, req.spec.name).value.version)
            && Last(sto', req.spec.name).value.version == Last(sto, req.spec.name).value.version
            && Previous(h', IgnoreTests(req)) == Previous(h, IgnoreTests(req))
  {
    var name, ns, s, h' := req.spec.name, req.spec.ns, Sorted(h), ObserveTest(req.canonical, h, w.rls, req.spec.testFilters);
    SortedCoherent(h, sto, name, ns);
    LatestSorted(h);
    PreviousSorted(h, IgnoreTests(req));
    LatestMember(s);
    if w.rls.version == Last(sto, name).value.version {
      PutLast(sto, name, w.rls);
      RetakeMirrors(req.canonical, w.rls, s[0], s[0].action, Some(SelectedTests(w.rls.hooks, req.spec.testFilters)));
      LatestIsTop(s);
      ReplaceLatest(s, 0, h'[0]);
      ReplaceTopPrevious(s, 0, h'[0], IgnoreTests(req));
    } else {
      LowerCoherent(h, sto, w, name, ns);
    }
  }

  /** What following tests makes of history and storage `h` and `sto`. */
  ghost predicate Followed(req: Request, h: seq<Snapshot>, sto: Storage, h': seq<Snapshot>, sto': Storage, written: bool) {
    && Last(sto, req.spec.name).Some? && FollowsTests(h', Last(sto', req.spec.name), req.spec.testFilters, written)
    && Last(sto', req.spec.name).value.version == Last(sto, req.spec.name).value.version
    && Previous(h', IgnoreTests(req)) == Previous(h, IgnoreTests(req))
  }

  lemma TestFollowsMore(req: Request, h: seq<Snapshot>, sto: Storage, h1: seq<Snapshot>, sto1: Storage, w: Write, written: bool)
    requires Followed(req, h, sto, h1, sto1, written) && Coherent(req.spec.name, req.spec.ns, h1, sto1)
    requires TameWrite(TestObserver(req.spec.testFilters), req.spec.name, req.spec.ns, sto1, w)
    ensures Followed(req, h, sto, ObserveTest(req.canonical, h1, w.rls, req.spec.testFilters), ApplyOne(sto1, w),
                     written || w.rls.version == Last(sto, req.spec.name).value.version)
  {
    TestFollowsOne(req, h1, sto1, w, written);
  }

  lemma {:induction false} TestFollows(req: Request, h: seq<Snapshot>, sto: Storage, ws: seq<Write>)
    requires Coherent(req.spec.name, req.spec.ns, h, sto) && Followed(req, h, sto, h, sto, false)
    requires Tame(TestObserver(req.spec.testFilters), req.spec.name, req.spec.ns, sto, ws)
    ensures Followed(req, h, sto, ObserveAll(req.canonical, TestObserver(req.spec.testFilters), h, ws), Apply(sto, ws),
                     Last(sto, req.spec.name).value.version in Observe(ws))
  {
    if ws != [] {
      var init, o := ws[..|ws| - 1], TestObserver(req.spec.testFilters);
      TestFollows(req, h, sto, init);
      ObserveAllKeeps(req.canonical, o, h, sto, init, req.spec.name, req.spec.ns);
      TestFollowsMore(req, h, sto, ObserveAll(req.canonical, o, h, init), Apply(sto, init), ws[|ws| - 1],
                      Last(sto, req.spec.name).value.version in Observe(init));
    }
  }

  lemma TestHistory(req: Request, h: seq<Snapshot>, sto: Storage, ws: seq<Write>)
    requires Coherent(req.spec.name, req.spec.ns, h, sto) && h != [] && Last(sto, req.spec.name).Some?
    requires Latest(h).Some? && Mirrors(Latest(h).value, Last(sto, req.spec.name).value)
    requires Tame(TestObserver(req.spec.testFilters), req.spec.name, req.spec.ns, sto, ws)
    ensures Followed(req, h, sto, Sorted(ObserveAll(req.canonical, TestObserver(req.spec.testFilters), Sorted(h), ws)), Apply(sto, ws),
                     Last(sto, req.spec.name).value.version in Observe(ws))
  {
    SortedCoherent(h, sto, req.spec.name, req.spec.ns);
    LatestSorted(h);
    PreviousSorted(h, IgnoreTests(req));
    TestFollows(req, Sorted(h), sto, ws);
    var h' := ObserveAll(req.canonical, TestObserver(req.spec.testFilters), Sorted(h), ws);
    LatestSorted(h');
    PreviousSorted(h', IgnoreTests(req));
    SortedLength(h');
  }

  /** What a test leaves recorded. */
  lemma TestRecords(req: Request, w: World, helm: HelmRun)
    requires Agrees(req, w) && w.status.history != [] && Wanted(req, Latest(w.status.history), Last(w.storage, req.spec.name))
    requires Behaved(req, Test, w.storage, helm)
    ensures Followed(req, w.status.history, w.storage, RunTest(req, w, helm).world.status.history, Apply(w.storage, helm.writes),
                     Last(w.storage, req.spec.name).value.version in Observe(helm.writes))
  {
    TestHistory(req, w.status.history, w.storage, helm.writes);
    TestedHistory(req, w, helm);
  }

  /** A failed test is counted, and makes the release one to be rolled back. */
  lemma TestBreaks(req: Request, w: World, target: Release, down: bool, helm: HelmRun)
    requires Testing(req) && Fresh(req, w, target) && w.status.upgradeFailures >= 0 && FailsTests(req, w.storage, target, helm)
    ensures var acted := Execute(req, Test, w, down, helm);
            && acted.result.Ok? && Unsound(req, acted.world, target)
            && acted.world.status.upgradeFailures == w.status.upgradeFailures + 1
            && acted.world.storage == Apply(w.storage, helm.writes)
  {
    TestAgrees(req, w, helm);
    TestRecords(req, w, helm);
    Outcomes.TestCounts(req, w, helm);
    ExecuteFrame(req, Test, w, down, helm);
    TestKeepsDigests(req, w, helm);
  }

  lemma TestKeepsDigests(req: Request, w: World, helm: HelmRun)
    ensures var st' := RunTest(req, w, helm).world.status;
            st'.postRenderersDigest == w.status.postRenderersDigest && st'.commonMetadataDigest == w.status.commonMetadataDigest
  {
  }

  lemma FreshIsUntested(req: Request, w: World, target: Release, diff: Diff)
    requires Testing(req) && Fresh(req, w, target)
    ensures Determine(req, w.status, w.storage, false, diff) == Some(Untested)
  {
    C.StateMeans(req, w.status, w.storage, diff, Untested);
  }

  lemma TestIsDecided(req: Request, w: World, target: Release, t: Turn)
    requires Fresh(req, w, target) && Calm(t)
    ensures var (d, e) := Decided(req, w, Untested, t);
            && d.next == Run(Test) && Fresh(req, e.decided, target) && e.decided.storage == w.storage
            && e.decided.status.upgradeFailures == w.status.upgradeFailures
  {
    SortedCoherent(w.status.history, w.storage, req.spec.name, req.spec.ns);
    LatestSorted(w.status.history);
    PreviousSorted(w.status.history, IgnoreTests(req));
  }

  lemma TestConcludes(req: Request, d: Decision, e: Event, t: Turn)
    requires Calm(t) && d.next == Run(Test) && Execute(req, Test, e.decided, t.actionDown, t.helm).result.Ok?
    ensures Proceed(req, d, e, [TypeRelease], t)
              == Go(e.(ran := Some(Test), after := Execute(req, Test, e.decided, t.actionDown, t.helm).world))
  {
  }

  /** The second turn tests, and goes on. */
  lemma TestTurn(req: Request, w: World, target: Release, t: Turn) returns (made: Event)
    requires Testing(req) && Fresh(req, w, target) && w.status.upgradeFailures >= 0 && Calm(t)
    requires FailsTests(req, w.storage, target, t.helm)
    ensures Turning(req, w, [TypeRelease], t) == Go(made) && made.ran == Some(Test)
    ensures Unsound(req, made.after, target) && made.after.status.upgradeFailures == w.status.upgradeFailures + 1
    ensures made.after.storage == Apply(w.storage, t.helm.writes)
  {
    FreshIsUntested(req, w, target, t.diff);
    TestIsDecided(req, w, target, t);
    var (d, e) := Decided(req, w, Untested, t);
    assert Turning(req, w, [TypeRelease], t) == Proceed(req, d, e, [TypeRelease], t);
    TestBreaks(req, e.decided, target, t.actionDown, t.helm);
    TestConcludes(req, d, e, t);
    made := e.(ran := Some(Test), after := Execute(req, Test, e.decided, t.actionDown, t.helm).world);
  }

  // ---------- The remediation ----------

  lemma UnsoundIsFailed(req: Request, w: World, target: Release, diff: Diff)
    requires Testing(req) && Unsound(req, w, target)
    ensures Determine(req, w.status, w.storage, false, diff) == Some(Failed) && Fallen(req, w, target)
  {
    C.StateMeans(req, w.status, w.storage, diff, Failed);
  }

  /** What is left when the retries are used up without a rollback. */
  ghost predicate GivenUpTests(req: Request, w: World) {
    exists target :: Unsound(req, w, target)
  }

  ghost predicate BetweenTests(req: Request, w: World, n: nat) {
    if n == 0 || RolledBack(req, n) then Waiting(req, w) else GivenUpTests(req, w)
  }

  /** The turn after failure number `n` ends the attempt. */
  ghost predicate TestRemedied(req: Request, n: nat, r: Turned) {
    && r.Stop? && r.last.Some?
    && r.last.value.ran == (if RolledBack(req, n) then Some(Rollback) else None)
    && r.result == Failure(if n <= req.spec.upgradeRemediation.retries then MustRequeue else ExceededMaxRetries)
    && BetweenTests(req, r.world, n) && r.world.status.upgradeFailures == n && r.world.status.lastAction == ActionUpgrade
  }

  lemma UnsoundSorted(req: Request, w: World, target: Release)
    requires Unsound(req, w, target)
    ensures Unsound(req, World(RememberForce(req, w.status).(history := Sorted(w.status.history)), w.storage), target)
  {
    SortedCoherent(w.status.history, w.storage, req.spec.name, req.spec.ns);
    LatestSorted(w.status.history);
    PreviousSorted(w.status.history, IgnoreTests(req));
  }

  lemma TestRemedyTurn(req: Request, w: World, target: Release, previous: seq<ReconcilerType>, t: Turn, n: nat)
    requires Testing(req) && Unsound(req, w, target) && Calm(t) && w.status.upgradeFailures == n && TypeRemediate !in previous
    requires RolledBack(req, n) ==> RollsBack(req, w.storage, target, t.helm)
    ensures TestRemedied(req, n, Turning(req, w, previous, t))
  {
    UnsoundIsFailed(req, w, target, t.diff);
    if RolledBack(req, n) {
      TurnRollsBack(req, w, target, previous, t);
    } else {
      TurnGivesUp(req, w, target, previous, t);
      UnsoundSorted(req, w, target);
    }
  }

  // ---------- One attempt ----------

  /** The environment of attempt number `n`, in which the upgrade succeeds, its tests
      fail, and a rollback, if there is one, succeeds. */
  ghost predicate AdverseTests(req: Request, n: nat, w: World, env: nat -> Turn) {
    && Calm(env(0)) && Succeeds(req, w.storage, env(0).helm)
    && TestsAdverse(req, n, Apply(w.storage, env(0).helm.writes), LeftOf(req, w.storage, env(0).helm).value, env)
  }

  ghost predicate TestsAdverse(req: Request, n: nat, sto: Storage, target: Release, env: nat -> Turn) {
    && Calm(env(1)) && FailsTests(req, sto, target, env(1).helm)
    && Calm(env(2)) && (RolledBack(req, n) ==> RollsBack(req, Apply(sto, env(1).helm.writes), target, env(2).helm))
  }

  /** One attempt upgrades and tests once, rolls back if retries remain or the last
      failure must be remediated, and is the last one exactly if none remain. */
  ghost predicate OneTested(req: Request, n: int, o: Outcome) {
    && |o.events| == 3 && o.events[0].ran == Some(Upgrade) && o.events[1].ran == Some(Test)
    && o.events[2].ran == (if RolledBack(req, n) then Some(Rollback) else None)
    && o.result == Failure(if n <= req.spec.upgradeRemediation.retries then MustRequeue else ExceededMaxRetries)
  }

  ghost predicate TestFailedOnce(req: Request, n: nat, o: Outcome) {
    OneTested(req, n, o) && BetweenTests(req, o.world, n) && o.world.status.upgradeFailures == n && o.world.status.lastAction == ActionUpgrade
  }

  /** What comes after the upgrade, or after its test, of an attempt. */
  ghost predicate EndsTested(req: Request, n: nat, untested: bool, o: Outcome) {
    && |o.events| == (if untested then 2 else 1) && (untested ==> o.events[0].ran == Some(Test))
    && TestRemedied(req, n, Stop(Some(o.events[|o.events| - 1]), o.world, o.result))
  }

  lemma TestedBefore(req: Request, n: nat, e: Event, rest: Outcome)
    requires e.ran == Some(Test) && EndsTested(req, n, false, rest)
    ensures EndsTested(req, n, true, Outcome([e] + rest.events, rest.world, rest.result))
  {
  }

  lemma UpgradedFirst(req: Request, n: nat, e: Event, rest: Outcome)
    requires e.ran == Some(Upgrade) && EndsTested(req, n, true, rest)
    ensures TestFailedOnce(req, n, Outcome([e] + rest.events, rest.world, rest.result))
  {
  }

  lemma UnsoundThen(req: Request, w: World, target: Release, env: nat -> Turn, n: nat)
    requires Testing(req) && Unsound(req, w, target) && w.status.upgradeFailures == n && Calm(env(2))
    requires RolledBack(req, n) ==> RollsBack(req, w.storage, target, env(2).helm)
    ensures EndsTested(req, n, false, Reconciling(req, w, [TypeRelease, TypeTest], env, 2))
  {
    TestRemedyTurn(req, w, target, [TypeRelease, TypeTest], env(2), n);
    var r := Turning(req, w, [TypeRelease, TypeTest], env(2));
    OneTurnFrom(req, w, [TypeRelease, TypeTest], env, 2, r.last.value, r.world, r.result);
  }

  lemma TestThen(req: Request, w: World, env: nat -> Turn, n: nat, e: Event)
    requires Turning(req, w, [TypeRelease], env(1)) == Go(e) && e.ran == Some(Test)
    requires EndsTested(req, n, false, Reconciling(req, e.after, [TypeRelease, TypeTest], env, 2))
    ensures EndsTested(req, n, true, Reconciling(req, w, [TypeRelease], env, 1))
  {
    var rest := Reconciling(req, e.after, [TypeRelease, TypeTest], env, 2);
    ReleaseThenTest();
    GoThen(req, w, [TypeRelease], env, 1, e, Test, [TypeRelease, TypeTest], rest);
    TestedBefore(req, n, e, rest);
  }

  lemma ReleaseThenTest()
    ensures [TypeRelease] + [TypeOf(Test)] == [TypeRelease, TypeTest]
  {
  }

  lemma FreshThen(req: Request, w: World, target: Release, env: nat -> Turn, n: nat)
    requires Testing(req) && Fresh(req, w, target) && w.status.upgradeFailures == n - 1 && n > 0
    requires TestsAdverse(req, n, w.storage, target, env)
    ensures EndsTested(req, n, true, Reconciling(req, w, [TypeRelease], env, 1))
  {
    var e := TestTurn(req, w, target, env(1));
    UnsoundThen(req, e.after, target, env, n);
    TestThen(req, w, env, n, e);
  }

  lemma TestAttemptEnds(req: Request, w: World, env: nat -> Turn, e: Event, n: nat)
    requires Turning(req, w, [], env(0)) == Go(e) && e.ran == Some(Upgrade)
    requires EndsTested(req, n, true, Reconciling(req, e.after, [TypeRelease], env, 1))
    ensures TestFailedOnce(req, n, Reconcile(req, w, env))
  {
    var rest := Reconciling(req, e.after, [TypeRelease], env, 1);
    FirstThen(req, w, env, e, TypeRelease, rest);
    UpgradedFirst(req, n, e, rest);
  }

  lemma TestAttemptExact(req: Request, w: World, env: nat -> Turn, n: nat)
    requires Testing(req) && Waiting(req, w) && AdverseTests(req, n, w, env)
    requires w.status.upgradeFailures == n - 1 && 0 < n <= req.spec.upgradeRemediation.retries + 1
    ensures TestFailedOnce(req, n, Reconcile(req, w, env))
  {
    var e := UpgradeTurn(req, w, env(0));
    FreshThen(req, e.after, LeftOf(req, w.storage, env(0).helm).value, env, n);
    TestAttemptEnds(req, w, env, e, n);
  }

  // ---------- The whole campaign ----------

  ghost predicate MeetsTests(req: Request, n: nat, w: World, a: Attempt) {
    a.req == req && a.crash.None? && AdverseTests(req, n, w, a.env)
  }

  /** Attempt number `n`, counting from 1, meets the environment of that number. */
  ghost predicate AllAdverseTests(req: Request, w: World, attempts: seq<Attempt>) {
    attempts != [] ==>
      var init, a := attempts[..|attempts| - 1], attempts[|attempts| - 1];
      AllAdverseTests(req, w, init) && MeetsTests(req, |attempts|, After(w, init), a)
  }

  /** The world before attempt number `i`, counting from 0. */
  ghost predicate TestsUnderway(req: Request, w: World, i: nat) {
    && w.status.upgradeFailures == i
    && (i > 0 ==> Settled(req, w.status) && w.status.lastAction == ActionUpgrade)
    && BetweenTests(req, w, i)
  }

  lemma PreparedTests(req: Request, w: World, i: nat)
    requires TestsUnderway(req, w, i)
    ensures TestsUnderway(req, World(Prepare(req, w.status), w.storage), i)
  {
  }

  lemma HandledTests(req: Request, w: World, i: nat)
    requires BetweenTests(req, w, i)
    ensures BetweenTests(req, World(Handled(req, w.status), w.storage), i)
  {
    if i > 0 && !RolledBack(req, i) {
      var target :| Unsound(req, w, target);
      assert Unsound(req, World(Handled(req, w.status), w.storage), target);
    }
  }

  lemma TestFailedUnderway(w: World, a: Attempt, n: nat)
    requires TestFailedOnce(a.req, n, Attempted(w, a)) && a.crash.None? && n > 0
    ensures TestsUnderway(a.req, Survives(w, a), n)
  {
    HandledTests(a.req, Attempted(w, a).world, n);
    AttemptSettled(w, a);
  }

  lemma TestAttemptUnderway(req: Request, w: World, n: nat, a: Attempt)
    requires Testing(req) && 0 < n <= req.spec.upgradeRemediation.retries + 1
    requires TestsUnderway(req, w, n - 1) && MeetsTests(req, n, w, a)
    ensures OneTested(req, n, Attempted(w, a)) && TestsUnderway(req, Survives(w, a), n)
  {
    PreparedTests(req, w, n - 1);
    TestAttemptExact(req, World(Prepare(req, w.status), w.storage), a.env, n);
    TestFailedUnderway(w, a, n);
  }

  /** Attempt number `n`, counting from 1, is an upgrade whose tests are failure
      number `n`. */
  ghost predicate EachTested(req: Request, w: World, attempts: seq<Attempt>) {
    attempts != [] ==>
      var init, a := attempts[..|attempts| - 1], attempts[|attempts| - 1];
      EachTested(req, w, init) && OneTested(req, |attempts|, Attempted(After(w, init), a))
  }

  lemma {:induction false} TestCampaign(req: Request, w: World, attempts: seq<Attempt>)
    requires Testing(req) && TestsUnderway(req, w, 0) && AllAdverseTests(req, w, attempts)
    requires |attempts| <= req.spec.upgradeRemediation.retries + 1
    ensures TestsUnderway(req, After(w, attempts), |attempts|) && EachTested(req, w, attempts)
  {
    if attempts != [] {
      var init, a := attempts[..|attempts| - 1], attempts[|attempts| - 1];
      TestCampaign(req, w, init);
      TestAttemptUnderway(req, After(w, init), |attempts|, a);
    }
  }

  // ---------- After the campaign ----------

  lemma TestsExhausted(req: Request, w: World, t: Turn)
    requires Testing(req) && TestsUnderway(req, w, req.spec.upgradeRemediation.retries + 1) && Calm(t)
    ensures var r := Turning(req, w, [], t);
            && TurnOver(r) && r.last.value.decided == r.world
            && TestsUnderway(req, r.world, req.spec.upgradeRemediation.retries + 1)
  {
    if RolledBack(req, req.spec.upgradeRemediation.retries + 1) {
      ExhaustedAtRest(req, w, t);
      RestSorted(req, w);
    } else {
      var target :| Unsound(req, w, target);
      UnsoundIsFailed(req, w, target, t.diff);
      TurnGivesUp(req, w, target, [], t);
      UnsoundSorted(req, w, target);
    }
  }

  lemma TestAttemptOver(req: Request, w: World, a: Attempt)
    requires Testing(req) && TestsUnderway(req, w, req.spec.upgradeRemediation.retries + 1)
    requires a.req == req && Calm(a.env(0))
    ensures Over(Attempted(w, a)) && TestsUnderway(req, Survives(w, a), req.spec.upgradeRemediation.retries + 1)
  {
    var w', n := World(Prepare(req, w.status), w.storage), req.spec.upgradeRemediation.retries + 1;
    PreparedTests(req, w, n);
    TestsExhausted(req, w', a.env(0));
    StoppedAttempt(w, a);
    HandledTests(req, Turning(req, w', [], a.env(0)).world, n);
  }

  lemma {:induction false} TestsOver(req: Request, w: World, later: seq<Attempt>)
    requires Testing(req) && TestsUnderway(req, w, req.spec.upgradeRemediation.retries + 1) && Later(req, later)
    ensures AllOver(w, later) && TestsUnderway(req, After(w, later), req.spec.upgradeRemediation.retries + 1)
  {
    if later != [] {
      var init, a := later[..|later| - 1], later[|later| - 1];
      assert a in later;
      TestsOver(req, w, init);
      TestAttemptOver(req, After(w, init), a);
    }
  }

  /** From a managed, deployed release of another chart or with other values, and no
      upgrade failures, if every upgrade succeeds, its tests fail, and every
      rollback succeeds, then each of the first `retries` attempts upgrades,
      tests, rolls back and asks for another attempt; attempt number
      `retries + 1` upgrades, tests, rolls back exactly if the last failure must
      be remediated, and exceeds the retries; and none of any number of later
      attempts runs anything. */
  lemma ExactTestBudget(req: Request, w: World, attempts: seq<Attempt>)
    requires Testing(req) && Waiting(req, w) && w.status.upgradeFailures == 0
    requires AllAdverseTests(req, w, attempts) && |attempts| == req.spec.upgradeRemediation.retries + 1
    ensures EachTested(req, w, attempts)
    ensures forall later | Later(req, later) :: AllOver(After(w, attempts), later)
  {
    TestCampaign(req, w, attempts);
    forall later | Later(req, later) ensures AllOver(After(w, attempts), later) {
      TestsOver(req, After(w, attempts), later);
    }
  }

  // ---------- Such campaigns exist ----------

  lemma SuccessExists(req: Request, sto: Storage) returns (helm: HelmRun)
    requires StoreNamed(sto, req.spec.name, req.spec.ns)
    requires Last(sto, req.spec.name).Some? && Last(sto, req.spec.name).value.status == Deployed
    ensures Succeeds(req, sto, helm) && StoreNamed(Apply(sto, helm.writes), req.spec.name, req.spec.ns)
    ensures LeftOf(req, sto, helm) == Last(sto, req.spec.name)
  {
    var name, ns, r := req.spec.name, req.spec.ns, Last(sto, req.spec.name).value;
    LastGreatest(sto, name);
    var made := Release(name, ns, r.version + 1, Deployed, req.chartName, req.chartVersion, req.values, "", "", []);
    helm := HelmRun([] + [Put(made)], false, None);
    PutOnTop(req, sto, [], made);
    Undeleted(req, sto, helm.writes, r.version);
  }

  lemma OneSelected(hook: string, filters: seq<Filter>)
    requires Selected(hook, filters)
    ensures var results := SelectedTests([Hook(hook, true, PhaseFailed)], filters);
            hook in results && results[hook] == PhaseFailed
  {
    var h := Hook(hook, true, PhaseFailed);
    assert [h][..0] == [] && h.test && Selected(h.name, filters);
  }

  lemma FailedTestExists(req: Request, sto: Storage, target: Release, hook: string) returns (helm: HelmRun)
    requires StoreNamed(sto, req.spec.name, req.spec.ns) && Last(sto, req.spec.name).Some? && Selected(hook, req.spec.testFilters)
    requires Last(sto, req.spec.name).value.status == Deployed && !Differs(req, Last(sto, req.spec.name).value)
    requires target.name == req.spec.name && target.version != Last(sto, req.spec.name).value.version
    requires Get(sto, target.name, target.version) == Some(target)
    ensures FailsTests(req, sto, target, helm) && StoreNamed(Apply(sto, helm.writes), req.spec.name, req.spec.ns)
  {
    var name, ns, r := req.spec.name, req.spec.ns, Last(sto, req.spec.name).value;
    var o := TestObserver(req.spec.testFilters);
    LastGreatest(sto, name);
    var tested := r.(hooks := [Hook(hook, true, PhaseFailed)]);
    var ws := [Put(tested)];
    helm := HelmRun(ws, true, None);
    assert ws[..0] == [] && Apply(sto, ws) == ApplyOne(sto, Put(tested));
    PutLast(sto, name, tested);
    StoreNamedKept(sto, name, ns, Put(tested));
    assert TameWrite(o, name, ns, sto, Put(tested)) && Tame(o, name, ns, sto, ws[..0]);
    assert Tame(o, name, ns, sto, ws);
    assert Observe(ws) == map[r.version := ObserveRelease(tested)];
    OneSelected(hook, req.spec.testFilters);
  }

  /** Every such release can meet an upgrade that succeeds, a failing test of any
      name that the filters select, and a rollback that succeeds. */
  lemma AdverseTestsExist(req: Request, n: nat, w: World, hook: string) returns (env: nat -> Turn)
    requires Waiting(req, w) && Selected(hook, req.spec.testFilters)
    ensures AdverseTests(req, n, w, env)
  {
    var target := Last(w.storage, req.spec.name).value;
    LastGreatest(w.storage, req.spec.name);
    var up := SuccessExists(req, w.storage);
    var sto := Apply(w.storage, up.writes);
    SuccessIsNewer(req, w.storage, up);
    var test := FailedTestExists(req, sto, target, hook);
    var back := RollbackExists(req, Apply(sto, test.writes), target);
    var t0, t1 := CALM.(helm := up), CALM.(helm := test);
    env := (n: nat) => if n == 0 then t0 else if n == 1 then t1 else back;
  }

  lemma SuccessIsNewer(req: Request, sto: Storage, helm: HelmRun)
    requires WellKeyed(sto) && Succeeds(req, sto, helm)
    ensures Last(Apply(sto, helm.writes), req.spec.name).value.version > Last(sto, req.spec.name).value.version
  {
    LastGreatest(sto, req.spec.name);
    ApplyWellKeyed(sto, helm.writes);
  }

  lemma OneMoreTest(req: Request, w: World, init: seq<Attempt>, a: Attempt)
    requires AllAdverseTests(req, w, init) && MeetsTests(req, |init| + 1, After(w, init), a)
    ensures AllAdverseTests(req, w, init + [a])
  {
    assert (init + [a])[..|init|] == init;
  }

  lemma UnderwayWaiting(req: Request, w: World, i: nat)
    requires TestsUnderway(req, w, i) && i <= req.spec.upgradeRemediation.retries
    ensures Waiting(req, w)
  {
  }

  /** So the budget is about campaigns that there are. */
  lemma {:induction false} TestCampaignExists(req: Request, w: World, n: nat, hook: string) returns (attempts: seq<Attempt>)
    requires Testing(req) && Waiting(req, w) && w.status.upgradeFailures == 0 && Selected(hook, req.spec.testFilters)
    requires n <= req.spec.upgradeRemediation.retries + 1
    ensures AllAdverseTests(req, w, attempts) && |attempts| == n
  {
    attempts := [];
    if n > 0 {
      var init := TestCampaignExists(req, w, n - 1, hook);
      TestCampaign(req, w, init);
      UnderwayWaiting(req, After(w, init), n - 1);
      var env := AdverseTestsExist(req, n, After(w, init), hook);
      OneMoreTest(req, w, init, Attempt(req, env, None));
      attempts := init + [Attempt(req, env, None)];
    }
  }
}
