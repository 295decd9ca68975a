/** What the state of a release means, in terms of the release, the latest
    snapshot and the request (internal/reconcile/state.go). */
module Classification {
  import opened Api
  import opened Snapshots
  import opened Releases
  import opened State
  import opened Actions
  import opened AtomicRelease
  import opened Runs
  import opened Requests
  import opened Completion
  import opened Tidiness

  // ---------- What there is to be seen ----------

  /** Helm was interrupted, or the controller was while Helm ran. */
  ghost predicate Interrupted(s: HelmStatus) {
    s in {PendingInstall, PendingUpgrade, PendingRollback, Uninstalling}
  }

  /** The snapshot stands for the release: it is of an older format, or its digest
      is of all that can be observed of the release. */
  ghost predicate StandsFor(s: Snapshot, r: Release) {
    s.apiVersion != "v2"
    || (s.digest.Digest? && s.digest.content == ObserveRelease(r).(oci := s.oci, action := ActionNone))
  }

  /** The observed digest is that of the part of the spec, in whichever algorithm. */
  ghost predicate Observes(observed: Digest<string>, part: Option<string>) {
    if part.None? then observed == Unparsable("") else observed.Digest? && observed.content == part.value
  }

  /** The release is what the request asks for. */
  ghost predicate AsAsked(req: Request, st: Status, s: Snapshot, r: Release) {
    && r.chartName == req.chartName && r.chartVersion == req.chartVersion
    && s.configDigest.Digest? && s.configDigest.content == req.values
    && Observes(st.postRenderersDigest, req.spec.postRenderers) && Observes(st.commonMetadataDigest, req.spec.commonMetadata)
  }

  ghost predicate SomeTestFailed(s: Snapshot) {
    s.testHooks.Some? && exists k | k in s.testHooks.value :: s.testHooks.value[k] == PhaseFailed
  }

  /** Tests were run to an end: one has failed, or all have succeeded. */
  ghost predicate HasResults(s: Snapshot) {
    s.testHooks.Some? && (SomeTestFailed(s) || forall k | k in s.testHooks.value :: s.testHooks.value[k] == PhaseSucceeded)
  }

  /** Failed tests are a failure of what was last done. */
  ghost predicate TestsCount(req: Request, st: Status) {
    match st.lastAction
    case ActionInstall =>
      !(if req.spec.installRemediation.ignoreTestFailures.Some? then req.spec.installRemediation.ignoreTestFailures.value
        else req.spec.testIgnoreFailures)
    case ActionUpgrade =>
      !(if req.spec.upgradeRemediation.ignoreTestFailures.Some? then req.spec.upgradeRemediation.ignoreTestFailures.value
        else req.spec.testIgnoreFailures)
    case _ => false
  }

  ghost predicate LooksForDrift(req: Request) {
    req.spec.driftMode != DriftDisabled
  }

  // ---------- The states ----------

  /** The release in storage is the one last recorded. */
  ghost predicate Managed(st: Status, last: Option<Release>) {
    && last.Some? && !Interrupted(last.value.status)
    && st.history != [] && StandsFor(Latest(st.history).value, last.value)
  }

  /** A managed release that is deployed as asked, and its tests. */
  ghost predicate DeployedAsAsked(req: Request, st: Status, last: Option<Release>) {
    Managed(st, last) && last.value.status == Deployed && AsAsked(req, st, Latest(st.history).value, last.value)
  }

  ghost predicate TestsDone(req: Request, st: Status)
    requires st.history != []
  {
    req.spec.testEnable ==> HasResults(Latest(st.history).value)
  }

  ghost predicate TestsPassed(req: Request, st: Status)
    requires st.history != []
  {
    TestsDone(req, st) && (req.spec.testEnable && TestsCount(req, st) ==> !SomeTestFailed(Latest(st.history).value))
  }

  /** What each state means. */
  ghost predicate Means(req: Request, st: Status, last: Option<Release>, diff: Diff, state: ReleaseStatus) {
    match state
    case Absent =>
      last.None? || (last.value.status == Uninstalled && (st.history == [] || Managed(st, last)))
    case Locked => last.Some? && Interrupted(last.value.status)
    case Unmanaged =>
      && last.Some? && !Interrupted(last.value.status)
      && (if st.history == [] then last.value.status != Uninstalled else !StandsFor(Latest(st.history).value, last.value))
    case Failed =>
      || (Managed(st, last) && last.value.status == StatusFailed)
      || (DeployedAsAsked(req, st, last) && TestsDone(req, st) && !TestsPassed(req, st))
    case OutOfSync => Managed(st, last) && last.value.status == Deployed && !DeployedAsAsked(req, st, last)
    case Untested => DeployedAsAsked(req, st, last) && !TestsDone(req, st)
    case Drifted => DeployedAsAsked(req, st, last) && TestsPassed(req, st) && LooksForDrift(req) && diff.Changed?
    case InSync => DeployedAsAsked(req, st, last) && TestsPassed(req, st) && (LooksForDrift(req) ==> diff.Unchanged?)
  }

  lemma VerifiedStands(s: Snapshot, r: Release)
    ensures VerifyReleaseObject(s, r) == Verified <==> StandsFor(s, r)
  {
  }

  lemma DigestObserves(observed: Digest<string>, part: Option<string>, canonical: string)
    ensures DigestChanged(part, observed, canonical) <==> !Observes(observed, part)
  {
  }

  lemma DeployedMeans(req: Request, st: Status, last: Option<Release>, diff: Diff, state: ReleaseStatus)
    requires Managed(st, last) && last.value.status == Deployed
    ensures DeployedState(req, st, Latest(st.history).value, last.value, diff) == Some(state)
            <==> state in {OutOfSync, Untested, Failed, Drifted, InSync} && Means(req, st, last, diff, state)
  {
    DigestObserves(st.postRenderersDigest, req.spec.postRenderers, req.canonical);
    DigestObserves(st.commonMetadataDigest, req.spec.commonMetadata, req.canonical);
  }

  /** The state is what its name means, and no other. */
  lemma StateMeans(req: Request, st: Status, sto: Storage, diff: Diff, state: ReleaseStatus)
    ensures Determine(req, st, sto, false, diff) == Some(state) <==> Means(req, st, Last(sto, req.spec.name), diff, state)
  {
    var last := Last(sto, req.spec.name);
    if last.Some? && st.history != [] {
      VerifiedStands(Latest(st.history).value, last.value);
      if Managed(st, last) && last.value.status == Deployed {
        DeployedMeans(req, st, last, diff, state);
      }
    }
  }

  /** The state cannot be told exactly if the storage cannot be read, the release
      has a status that Helm does not leave, or drift cannot be looked for. */
  lemma StateUnknown(req: Request, st: Status, sto: Storage, down: bool, diff: Diff)
    ensures var last := Last(sto, req.spec.name);
            Determine(req, st, sto, down, diff).None? <==>
              || down
              || (Managed(st, last) && last.value.status in {StatusUnknown, Superseded})
              || (DeployedAsAsked(req, st, last) && TestsPassed(req, st) && LooksForDrift(req) && diff.DiffError?)
  {
    var last := Last(sto, req.spec.name);
    if last.Some? && st.history != [] {
      VerifiedStands(Latest(st.history).value, last.value);
      DigestObserves(st.postRenderersDigest, req.spec.postRenderers, req.canonical);
      DigestObserves(st.commonMetadataDigest, req.spec.commonMetadata, req.canonical);
    }
  }

  // ---------- In sync ----------

  /** The last release is deployed with the chart and the values asked for. */
  ghost predicate Delivered(req: Request, sto: Storage) {
    var last := Last(sto, req.spec.name);
    && last.Some? && last.value.status == Deployed
    && last.value.chartName == req.chartName && last.value.chartVersion == req.chartVersion && last.value.config == req.values
  }

  lemma InSyncDelivers(req: Request, st: Status, sto: Storage, down: bool, diff: Diff, state: ReleaseStatus)
    requires Genuine(st.history) && Determine(req, st, sto, down, diff) == Some(state) && (state.InSync? || state.Drifted?)
    ensures Delivered(req, sto)
  {
    StateMeans(req, st, sto, diff, state);
    LatestMember(st.history);
  }

  /** In every run from an empty status, through any requests, crashes and other
      writers, a reconciliation that completes with nothing left to do leaves a
      release that is deployed with the chart and the values asked for. */
  lemma CompletionDelivers(sto: Storage, attempts: seq<Attempt>, a: Attempt)
    requires LeavesNothing(a.req, Attempted(After(World(EMPTY_STATUS, sto), attempts), a))
    ensures Delivered(a.req, Attempted(After(World(EMPTY_STATUS, sto), attempts), a).world.storage)
  {
    var w := After(World(EMPTY_STATUS, sto), attempts);
    var w', o := World(Prepare(a.req, w.status), w.storage), Attempted(w, a);
    SnapshotsGenuine(sto, attempts);
    CompletionSound(a.req, w', [], a.env, 0);
    RunLinked(a.req, w', [], a.env, 0);
    var n := |o.events| - 1;
    LinkedAfter(a.req, w', o.events, n);
    EventsGenuine(a.req, w', o.events, n);
    var e := o.events[n];
    InSyncDelivers(a.req, e.seen.status, e.seen.storage, e.turn.lastDown, e.turn.diff, e.state);
  }

  lemma {:induction false} EventsGenuine(req: Request, w: World, events: seq<Event>, n: nat)
    requires Linked(req, w, events) && n <= |events| && Genuine(w.status.history)
    ensures Genuine(ReachedWorld(w, events[..n]).status.history)
    decreases n
  {
    if n > 0 {
      EventsGenuine(req, w, events, n - 1);
      LinkedAfter(req, w, events, n - 1);
      EventGenuine(req, ReachedWorld(w, events[..n - 1]), events[n - 1]);
    }
  }
}
