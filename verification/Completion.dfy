/** A reconciliation completes only where nothing remains to be done, running it
    again from there changes nothing, and a Helm that works brings it there. */
module Completion {
  import opened Api
  import opened Snapshots
  import opened Releases
  import opened Recording
  import opened Requests
  import opened State
  import opened Actions
  import opened AtomicRelease
  import opened Runs
  import opened Coherence

  /** Nothing remains to be done: in sync, or drifted with no correction asked
      for. */
  ghost predicate NothingLeft(req: Request, e: Event) {
    e.next.Nothing? && (e.state.InSync? || (e.state.Drifted? && !req.spec.driftMode.DriftEnabled?))
  }

  /** The next action would repeat the type of an earlier one, and no retry or
      remediation is left to wait for. */
  ghost predicate OutOfRetries(req: Request, e: Event, previous: seq<ReconcilerType>) {
    && e.next.Run? && TypeOf(e.next.action) in previous
    && !ActiveRetry(req, e.decided.status)
    && ActiveRemediation(req, e.decided.status).Some?
    && ActiveRemediation(req, e.decided.status).value.RetriesExhausted(e.decided.status)
  }

  lemma DecidedNothing(req: Request, st: Status, sto: Storage, state: ReleaseStatus, down: bool)
    requires ActionForState(req, st, sto, state, down).next.Nothing?
    ensures state.InSync? || (state.Drifted? && !req.spec.driftMode.DriftEnabled?)
    ensures state.InSync? ==> !ForceRequested(req, st)
  {
  }

  lemma ProceedDone(req: Request, d: Decision, e: Event, previous: seq<ReconcilerType>, t: Turn)
    requires e.next == d.next && e.ran.None?
    ensures var r := Proceed(req, d, e, previous, t);
            r.Stop? && r.result.Done? ==>
              && r.last == Some(e)
              && ((d.next.Nothing? && r.world == World(ObserveSpec(req, e.decided.status), e.decided.storage))
                  || (OutOfRetries(req, e, previous) && r.world == e.decided))
  {
  }

  lemma TurnDone(req: Request, w: World, previous: seq<ReconcilerType>, t: Turn)
    requires Turning(req, w, previous, t).Stop? && Turning(req, w, previous, t).result.Done?
    ensures var r := Turning(req, w, previous, t);
            && r.last.Some? && r.last.value.ran.None? && Recorded(req, w, r.last.value)
            && ((NothingLeft(req, r.last.value)
                 && r.world == World(ObserveSpec(req, r.last.value.decided.status), r.last.value.decided.storage))
                || OutOfRetries(req, r.last.value, previous))
  {
    TurnRecorded(req, w, previous, t);
    var seen := Seen(w, t);
    var state := Determine(req, seen.status, seen.storage, t.lastDown, t.diff);
    var (d, e) := Decided(req, seen, state.value, t);
    ProceedDone(req, d, e, previous, t);
    if d.next.Nothing? {
      DecidedNothing(req, SortedByLookup(req, seen.status, seen.storage, t.lastDown), seen.storage, state.value, t.getDown);
    }
  }

  /** The types of the actions that the events ran. */
  ghost function TypesRun(events: seq<Event>): seq<ReconcilerType> {
    if events == [] then []
    else TypesRun(events[..|events| - 1])
         + (if events[|events| - 1].ran.Some? then [TypeOf(events[|events| - 1].ran.value)] else [])
  }

  lemma {:induction false} TypesRunCons(e: Event, rest: seq<Event>)
    requires e.ran.Some?
    ensures TypesRun([e] + rest) == [TypeOf(e.ran.value)] + TypesRun(rest)
  {
    if rest == [] {
      assert [e] + rest == [e] && [e][..0] == [];
    } else {
      var init := rest[..|rest| - 1];
      TypesRunCons(e, init);
      assert ([e] + rest)[..|rest|] == [e] + init;
    }
  }

  /** A reconciliation that completes ends on an event that ran nothing. */
  ghost predicate CompletesOn(req: Request, previous: seq<ReconcilerType>, o: Outcome) {
    && o.events != []
    && var e := o.events[|o.events| - 1];
    && e.ran.None? && (exists w' :: Recorded(req, w', e))
    && ((NothingLeft(req, e) && o.world == World(ObserveSpec(req, e.decided.status), e.decided.storage))
        || OutOfRetries(req, e, previous + TypesRun(o.events)))
  }

  lemma CompletesCons(req: Request, previous: seq<ReconcilerType>, e: Event, rest: Outcome)
    requires e.ran.Some? && CompletesOn(req, previous + [TypeOf(e.ran.value)], rest)
    ensures CompletesOn(req, previous, Outcome([e] + rest.events, rest.world, rest.result))
  {
    TypesRunCons(e, rest.events);
    assert previous + [TypeOf(e.ran.value)] + TypesRun(rest.events) == previous + TypesRun([e] + rest.events);
  }

  /** A reconciliation returns without an error only if the release is in sync,
      or has drifted with no correction asked for, or an action type would
      repeat with no active retry and an exhausted active remediation. */
  lemma {:induction false} CompletionSound(req: Request, w: World, previous: seq<ReconcilerType>, env: nat -> Turn, n: nat)
    requires Reconciling(req, w, previous, env, n).result.Done?
    ensures CompletesOn(req, previous, Reconciling(req, w, previous, env, n))
    decreases Remaining(previous)
  {
    match Turning(req, w, previous, env(n))
    case Stop(last, _, _) =>
      TurnDone(req, w, previous, env(n));
      assert TypesRun([last.value]) == [] by {
        assert [last.value][..0] == [];
      }
      assert previous + [] == previous;
    case Go(e) =>
      GoShape(req, w, previous, env(n));
      CompletionSound(req, e.after, previous + [TypeOf(e.ran.value)], env, n + 1);
      CompletesCons(req, previous, e, Reconciling(req, e.after, previous + [TypeOf(e.ran.value)], env, n + 1));
  }

  // ---------- The fixed point ----------

  /** What a release that is in sync, or has drifted, must be. */
  lemma SeenDeployed(req: Request, st: Status, sto: Storage, down: bool, diff: Diff, state: ReleaseStatus)
    requires Determine(req, st, sto, down, diff) == Some(state) && (state.InSync? || state.Drifted?)
    ensures var last := Last(sto, req.spec.name);
            && !down && last.Some? && last.value.status == Deployed && st.history != []
            && VerifyReleaseObject(Latest(st.history).value, last.value) == Verified
            && DeployedState(req, st, Latest(st.history).value, last.value, diff) == Some(state)
            && SortedByLookup(req, st, sto, down) == st.(history := Sorted(st.history))
  {
  }

  /** Rewriting the observed digests with the canonical algorithm does not change
      the state. */
  lemma DeployedStateAgain(req: Request, st: Status, st': Status, cur: Snapshot, r: Release, diff: Diff, state: ReleaseStatus)
    requires DeployedState(req, st, cur, r, diff) == Some(state) && (state.InSync? || state.Drifted?)
    requires st'.lastAction == st.lastAction
    ensures DeployedState(req, ObserveSpec(req, st'), cur, r, diff) == Some(state)
  {
  }

  lemma TruncateIgnoringIdempotent(h: seq<Snapshot>)
    ensures var t := TruncateIgnoringPrevious(h);
            Sorted(t) == t && Latest(t) == Latest(h) && TruncateIgnoringPrevious(t) == t
  {
    TruncatePrefix(h, true);
    PrefixLatest(h, TruncateIgnoringPrevious(h));
  }

  /** The decision for a release in sync leaves a history that is sorted, with the
      same latest snapshot, and truncated as far as it goes. */
  lemma InSyncHistory(req: Request, st: Status, st': Status)
    requires st'.lastAction == st.lastAction
    requires st'.history == DecideInSync(req, st, false).status.history
    ensures Sorted(st'.history) == st'.history && Latest(st'.history) == Latest(st.history)
    ensures DecideInSync(req, st', false) == Decision(st', Nothing)
  {
    assert ActiveRetry(req, st') == ActiveRetry(req, st) && IgnoresTestFailures(req, st') == IgnoresTestFailures(req, st);
    if ActiveRetry(req, st) {
      TruncateIgnoringIdempotent(st.history);
    } else {
      TruncateKeeps(st.history, IgnoresTestFailures(req, st));
    }
  }

  /** Deciding again about the status that a completed decision left, with the
      digests observed and any token of a request to reconcile remembered,
      decides the same and leaves the same. */
  lemma DecideAgain(req: Request, st: Status, sto: Storage, state: ReleaseStatus, down: bool, down': bool, token: string)
    requires ActionForState(req, st, sto, state, down).next.Nothing? && Sorted(st.history) == st.history
    ensures var st' := ObserveSpec(req, ActionForState(req, st, sto, state, down).status.(lastHandledReconcileAt := token));
            && Sorted(st'.history) == st'.history && Latest(st'.history) == Latest(st.history)
            && ActionForState(req, st', sto, state, down') == Decision(st', Nothing)
  {
    DecidedNothing(req, st, sto, state, down);
    DecisionFrame(req, st, sto, state, down);
    var st' := ObserveSpec(req, ActionForState(req, st, sto, state, down).status.(lastHandledReconcileAt := token));
    assert RememberForce(req, st') == st' && !ForceRequested(req, st');
    if state.InSync? {
      InSyncHistory(req, RememberForce(req, st), st');
    }
  }

  /** The state of a status that differs in its observed digests only. */
  lemma StateAgain(req: Request, st: Status, sto: Storage, down: bool, diff: Diff, state: ReleaseStatus, st': Status)
    requires Determine(req, st, sto, down, diff) == Some(state) && (state.InSync? || state.Drifted?)
    requires st'.lastAction == st.lastAction && Latest(st'.history) == Latest(st.history)
    ensures Determine(req, ObserveSpec(req, st'), sto, false, diff) == Some(state)
  {
  }

  /** The world that a completed event leaves, with a token remembered. */
  ghost function Left(req: Request, e: Event, token: string): World {
    World(ObserveSpec(req, e.decided.status.(lastHandledReconcileAt := token)), e.decided.storage)
  }

  /** A turn over the world that a completed event leaves, with the cluster as it
      was, completes without running anything and leaves that world as it is. */
  lemma TurnAgain(req: Request, w: World, e: Event, t: Turn, token: string)
    requires Recorded(req, w, e) && NothingLeft(req, e)
    requires !t.canceled && t.foreign.None? && !t.lastDown && t.diff == e.turn.diff
    ensures var r := Turning(req, Left(req, e, token), [], t);
            r.Stop? && r.last.Some? && r.last.value.ran.None? && r.world == Left(req, e, token) && r.result.Done?
  {
    var st := SortedByLookup(req, e.seen.status, e.seen.storage, e.turn.lastDown);
    var w' := Left(req, e, token);
    SeenDeployed(req, e.seen.status, e.seen.storage, e.turn.lastDown, e.turn.diff, e.state);
    SortedMembers(e.seen.status.history);
    SortedIdempotent(Sorted(e.seen.status.history));
    LatestSorted(e.seen.status.history);
    DecisionFrame(req, st, e.seen.storage, e.state, e.turn.getDown);
    DecideAgain(req, st, e.seen.storage, e.state, e.turn.getDown, t.getDown, token);
    StateAgain(req, e.seen.status, e.seen.storage, e.turn.lastDown, e.turn.diff, e.state,
               e.decided.status.(lastHandledReconcileAt := token));
    SeenDeployed(req, w'.status, w'.storage, false, t.diff, e.state);
    var (d, e') := Decided(req, w', e.state, t);
    assert d == Decision(w'.status, Nothing);
  }

  /** The outcome is that nothing remains to be done. */
  ghost predicate LeavesNothing(req: Request, o: Outcome) {
    o.result.Done? && o.events != [] && NothingLeft(req, o.events[|o.events| - 1])
  }

  /** A turn that finds the cluster as the last event did. */
  ghost predicate MeetsTheSame(o: Outcome, t: Turn)
    requires o.events != []
  {
    t.diff == o.events[|o.events| - 1].turn.diff && !t.canceled && t.foreign.None? && !t.lastDown
  }

  /** Running again changes nothing. */
  ghost predicate IsFixed(req: Request, w: World, again: nat -> Turn) {
    var o := Reconcile(req, w, again);
    |o.events| == 1 && o.events[0].ran.None? && o.world == w && o.result.Done?
  }

  /** The world with a token of a request to reconcile remembered. */
  function Remembering(w: World, token: string): World {
    World(w.status.(lastHandledReconcileAt := token), w.storage)
  }

  /** Reconciling again after an outcome that left nothing to be done. */
  lemma DoneAgain(req: Request, o: Outcome, again: nat -> Turn, token: string)
    requires CompletesOn(req, [], o) && LeavesNothing(req, o) && MeetsTheSame(o, again(0))
    ensures IsFixed(req, Remembering(o.world, token), again)
  {
    var e := o.events[|o.events| - 1];
    var w' :| Recorded(req, w', e);
    TurnAgain(req, w', e, again(0), token);
    assert Remembering(o.world, token) == Left(req, e, token);
    var r := Turning(req, Left(req, e, token), [], again(0));
    OneTurn(req, Left(req, e, token), again, r.last.value, r.world, r.result);
  }

  /** Where nothing remains to be done, reconciling the same request again on the
      same storage and cluster runs no action, completes, and leaves the whole
      status as it is. */
  lemma CompletionFixedPoint(req: Request, w: World, env: nat -> Turn, again: nat -> Turn)
    requires LeavesNothing(req, Reconcile(req, w, env)) && MeetsTheSame(Reconcile(req, w, env), again(0))
    ensures IsFixed(req, Reconcile(req, w, env).world, again)
  {
    CompletionSound(req, w, [], env, 0);
    var o := Reconcile(req, w, env);
    DoneAgain(req, o, again, o.world.status.lastHandledReconcileAt);
  }

  /** An attempt that runs nothing, completes, and leaves everything as it is. */
  ghost predicate IsIdle(w: World, a: Attempt) {
    var o := Attempted(w, a);
    |o.events| == 1 && o.events[0].ran.None? && o.result.Done? && Survives(w, a) == w
  }

  lemma FixedIsIdle(w: World, a: Attempt)
    requires IsFixed(a.req, w, a.env) && Prepare(a.req, w.status) == w.status && Handled(a.req, w.status) == w.status
    ensures IsIdle(w, a)
  {
    assert World(Prepare(a.req, w.status), w.storage) == w;
  }

  /** After an attempt that left nothing to be done, another one at the same request
      that meets the same cluster is idle. */
  lemma NextIsIdle(w: World, a: Attempt, next: Attempt)
    requires a.crash.None? && LeavesNothing(a.req, Attempted(w, a))
    requires next.req == a.req && MeetsTheSame(Attempted(w, a), next.env(0))
    ensures IsIdle(Survives(w, a), next)
  {
    var o := Attempted(w, a);
    CompletionSound(a.req, World(Prepare(a.req, w.status), w.storage), [], a.env, 0);
    DoneAgain(a.req, o, next.env, Handled(a.req, o.world.status).lastHandledReconcileAt);
    AttemptSettled(w, a);
    PrepareSettles(a.req, Survives(w, a).status);
    FixedIsIdle(Survives(w, a), next);
  }

  /** All attempts are idle. */
  ghost predicate AllIdle(w: World, attempts: seq<Attempt>) {
    forall b | b in attempts :: IsIdle(w, b)
  }

  lemma {:induction false} IdleKeeps(w: World, attempts: seq<Attempt>)
    requires AllIdle(w, attempts)
    ensures After(w, attempts) == w
  {
    if attempts != [] {
      assert attempts[|attempts| - 1] in attempts;
      IdleKeeps(w, attempts[..|attempts| - 1]);
    }
  }

  /** After an attempt that left nothing to be done, any number of attempts at the
      same request that meet the same cluster run nothing, and nothing changes. */
  lemma CompletionIsLasting(w: World, a: Attempt, later: seq<Attempt>)
    requires a.crash.None? && LeavesNothing(a.req, Attempted(w, a))
    requires forall b | b in later :: b.req == a.req && MeetsTheSame(Attempted(w, a), b.env(0))
    ensures After(Survives(w, a), later) == Survives(w, a) && AllIdle(Survives(w, a), later)
  {
    forall b | b in later ensures IsIdle(Survives(w, a), b) {
      NextIsIdle(w, a, b);
    }
    IdleKeeps(Survives(w, a), later);
  }

  // ---------- Progress ----------

  /** The release is deployed, recorded, and what is asked for. */
  ghost predicate Wanted(req: Request, cur: Option<Snapshot>, last: Option<Release>) {
    && cur.Some? && last.Some? && Mirrors(cur.value, last.value) && last.value.status == Deployed
    && last.value.chartName == req.chartName && last.value.chartVersion == req.chartVersion && last.value.config == req.values
  }

  ghost predicate Fulfilled(req: Request, w: World) {
    Wanted(req, Latest(w.status.history), Last(w.storage, req.spec.name)) && w.status == ObserveSpec(req, w.status)
  }

  /** Helm makes the release that is asked for. */
  ghost predicate Fulfils(req: Request, sto: Storage, helm: HelmRun) {
    && !helm.failed && helm.writes != [] && NewTop(req.spec.name, req.spec.ns, sto, helm.writes)
    && var r := Last(Apply(sto, helm.writes), req.spec.name).value;
    && r.status == Deployed && r.chartName == req.chartName && r.chartVersion == req.chartVersion && r.config == req.values
  }

  lemma RecordFulfils(req: Request, h: seq<Snapshot>, sto: Storage, ws: seq<Write>, oci: string, action: ReleaseAction)
    requires Coherent(req.spec.name, req.spec.ns, h, sto) && (h == [] || Last(sto, req.spec.name).Some?)
    requires NewTop(req.spec.name, req.spec.ns, sto, ws) && ws != []
    ensures var h' := Record(req.canonical, Observe(ws), h, oci, action);
            && h' != [] && Latest(h').Some?
            && Mirrors(Latest(h').value, Last(Apply(sto, ws), req.spec.name).value)
  {
    NewTopObserved(sto, ws, req.spec.name, req.spec.ns);
    NewTopAbove(h, sto, ws, req.spec.name, req.spec.ns);
    RecordBatch(req.canonical, Observe(ws), h, oci, action);
    assert Mirrors(Head(req.canonical, Observe(ws), oci, action), Last(Apply(sto, ws), req.spec.name).value);
  }

  lemma FinishFulfils(req: Request, st: Status, sto: Storage, r: Remediation, retry: bool, helm: HelmRun)
    requires !helm.failed && st.history != [] && Wanted(req, Latest(st.history), Last(sto, req.spec.name))
    ensures var acted := FinishRelease(req, st, sto, r, retry, helm);
            && acted.result.Ok? && Fulfilled(req, acted.world) && acted.world.storage == sto
            && ForceRequested(req, acted.world.status) == ForceRequested(req, st)
  {
    LatestSorted(st.history);
  }

  lemma ReleaseFulfils(req: Request, a: Action, w: World, down: bool, helm: HelmRun)
    requires a.Install? || a.Upgrade?
    requires Agrees(req, w) && Fulfils(req, w.storage, helm)
    requires a.Upgrade? ==> w.status.history == [] || Last(w.storage, req.spec.name).Some?
    ensures var acted := Execute(req, a, w, down, helm);
            && acted.result.Ok? && Fulfilled(req, acted.world)
            && acted.world.storage == Apply(w.storage, helm.writes)
            && ForceRequested(req, acted.world.status) == ForceRequested(req, w.status)
  {
    var h, action := if a.Install? then [] else w.status.history, if a.Install? then ActionInstall else ActionUpgrade;
    var oci := w.status.lastAttemptedRevisionDigest;
    RecordFulfils(req, h, w.storage, helm.writes, oci, action);
    var st := w.status.(lastAction := action, history := Record(req.canonical, Observe(helm.writes), h, oci, action));
    var own := if a.Install? then req.spec.installRemediation else req.spec.upgradeRemediation;
    var retry := MustRetry(if a.Install? then req.spec.installStrategy else req.spec.upgradeStrategy, req.defaultToRetry);
    FinishFulfils(req, st, Apply(w.storage, helm.writes), own, retry, helm);
  }

  lemma FulfilledInSync(req: Request, w: World, diff: Diff)
    requires Fulfilled(req, w) && !req.spec.testEnable && (diff.Unchanged? || !req.spec.MustDetectChanges())
    ensures Determine(req, w.status, w.storage, false, diff) == Some(InSync)
  {
    MatchesVerifies(Latest(w.status.history).value, Last(w.storage, req.spec.name).value);
  }

  lemma InSyncStops(req: Request, w: World, previous: seq<ReconcilerType>, t: Turn)
    requires Calm(t) && Determine(req, w.status, w.storage, false, t.diff) == Some(InSync) && !ForceRequested(req, w.status)
    ensures var r := Turning(req, w, previous, t);
            && r.Stop? && r.last.Some? && r.last.value.state.InSync? && r.last.value.ran.None? && r.result.Done?
            && r.world.storage == w.storage
  {
  }

  /** The decision to install or upgrade is made on agreeing history and storage,
      with a release to upgrade. */
  lemma ReleaseDecided(req: Request, w: World, t: Turn, state: ReleaseStatus)
    requires Agrees(req, w) && Calm(t) && Determine(req, w.status, w.storage, false, t.diff) == Some(state)
    requires var (d, e) := Decided(req, w, state, t);
             d.next.Run? && TypeOf(d.next.action) == TypeRelease
    ensures var (d, e) := Decided(req, w, state, t);
            && Agrees(req, e.decided) && (d.next.action.Upgrade? ==> Last(w.storage, req.spec.name).Some?)
            && e.decided.storage == w.storage && !ForceRequested(req, e.decided.status)
  {
    var st := SortedByLookup(req, w.status, w.storage, false);
    LookupAgrees(req, w, false);
    DecisionAgrees(req, World(st, w.storage), state, false);
    DecisionFrame(req, st, w.storage, state, false);
  }

  /** A turn that makes the release, from its decision on. */
  lemma FulfillingEvent(req: Request, d: Decision, e: Event, previous: seq<ReconcilerType>, t: Turn) returns (made: Event)
    requires d.next.Run? && TypeOf(d.next.action) == TypeRelease && TypeRelease !in previous && Calm(t)
    requires Agrees(req, e.decided) && (d.next.action.Upgrade? ==> Last(e.decided.storage, req.spec.name).Some?)
    requires !ForceRequested(req, e.decided.status) && Fulfils(req, e.decided.storage, t.helm)
    ensures Proceed(req, d, e, previous, t) == Go(made) && made.ran.Some? && TypeOf(made.ran.value) == TypeRelease
    ensures Fulfilled(req, made.after) && !ForceRequested(req, made.after.status)
    ensures made.after.storage == Apply(e.decided.storage, t.helm.writes)
  {
    ReleaseFulfils(req, d.next.action, e.decided, t.actionDown, t.helm);
    made := e.(ran := Some(d.next.action), after := Execute(req, d.next.action, e.decided, t.actionDown, t.helm).world);
  }

  /** The turn that makes the release goes on, with the release made. */
  lemma FulfillingTurn(req: Request, w: World, previous: seq<ReconcilerType>, t: Turn, state: ReleaseStatus) returns (made: Event)
    requires Agrees(req, w) && Calm(t) && TypeRelease !in previous && Fulfils(req, w.storage, t.helm)
    requires Determine(req, w.status, w.storage, false, t.diff) == Some(state)
    requires var (d, e) := Decided(req, w, state, t);
             d.next.Run? && TypeOf(d.next.action) == TypeRelease
    ensures Turning(req, w, previous, t) == Go(made) && made.ran.Some? && TypeOf(made.ran.value) == TypeRelease
    ensures Fulfilled(req, made.after) && !ForceRequested(req, made.after.status)
    ensures made.after.storage == Apply(w.storage, t.helm.writes)
  {
    var (d, e) := Decided(req, w, state, t);
    ReleaseDecided(req, w, t, state);
    made := FulfillingEvent(req, d, e, previous, t);
    assert Turning(req, w, previous, t) == Proceed(req, d, e, previous, t);
  }

  /** Where history and storage agree and an install or upgrade is decided, at
      whatever point of a reconciliation with tests off, a Helm that makes the
      release asked for, left alone, ends the reconciliation in sync. */
  lemma ReleaseCompletes(req: Request, w: World, previous: seq<ReconcilerType>, env: nat -> Turn, n: nat, state: ReleaseStatus)
    requires Agrees(req, w) && !req.spec.testEnable && TypeRelease !in previous
    requires Calm(env(n)) && Calm(env(n + 1)) && (env(n + 1).diff.Unchanged? || !req.spec.MustDetectChanges())
    requires Determine(req, w.status, w.storage, false, env(n).diff) == Some(state) && Fulfils(req, w.storage, env(n).helm)
    requires var (d, e) := Decided(req, w, state, env(n));
             d.next.Run? && TypeOf(d.next.action) == TypeRelease
    ensures var o := Reconciling(req, w, previous, env, n);
            && o.result.Done? && |o.events| == 2 && o.events[1].state.InSync?
            && o.world.storage == Apply(w.storage, env(n).helm.writes)
  {
    var e := FulfillingTurn(req, w, previous, env(n), state);
    FulfilledInSync(req, e.after, env(n + 1).diff);
    InSyncStops(req, e.after, previous + [TypeRelease], env(n + 1));
    var r := Turning(req, e.after, previous + [TypeRelease], env(n + 1));
    TwoTurnsFrom(req, w, previous, env, n, e, r.last.value, r.world, r.result);
  }
}
