/** DetermineReleaseState (internal/reconcile/state.go). */
module State {
  import opened Api
  import opened Snapshots
  import opened Releases

  datatype ReleaseStatus = Absent | Unmanaged | OutOfSync | Drifted | Locked | Untested | InSync | Failed

  /** What comparing the cluster with the manifest yields. A comparison that
      fails part-way but has found changes counts as `Changed`. */
  datatype Diff = Unchanged | Changed | DiffError

  function ObservedAlgorithm(observed: Digest<string>, canonical: string): string {
    if observed.Digest? then observed.algorithm else canonical
  }

  /** The digest of an optional part of the spec, or the empty digest. */
  function SpecDigest(part: Option<string>, algorithm: string): Digest<string> {
    if part.Some? then Digest(algorithm, part.value) else NO_DIGEST
  }

  predicate DigestChanged(part: Option<string>, observed: Digest<string>, canonical: string) {
    SpecDigest(part, ObservedAlgorithm(observed, canonical)) != observed
  }

  predicate IsLocked(s: HelmStatus) {
    s.IsPending() || s == Uninstalling
  }

  /** The state of a deployed release that is the one last recorded. */
  function DeployedState(req: Request, st: Status, cur: Snapshot, r: Release, diff: Diff): Option<ReleaseStatus> {
    var active := ActiveRemediation(req, st);
    if !VerifyRelease(r, cur, req.chartName, req.chartVersion, req.values) then Some(OutOfSync)
    else if DigestChanged(req.spec.postRenderers, st.postRenderersDigest, req.canonical) then Some(OutOfSync)
    else if DigestChanged(req.spec.commonMetadata, st.commonMetadataDigest, req.canonical) then Some(OutOfSync)
    else if req.spec.testEnable && !cur.HasBeenTested() then Some(Untested)
    else if req.spec.testEnable && active.Some? && !active.value.MustIgnoreTestFailures(req.spec.testIgnoreFailures)
            && cur.HasTestInPhase(PhaseFailed) then Some(Failed)
    else if req.spec.MustDetectChanges() && diff.DiffError? then None
    else if req.spec.MustDetectChanges() && diff.Changed? then Some(Drifted)
    else Some(InSync)
  }

  /** The state of the release `last` in storage, given the latest snapshot. */
  function StateOf(req: Request, st: Status, cur: Option<Snapshot>, last: Option<Release>, diff: Diff): Option<ReleaseStatus> {
    if last.None? then Some(Absent) else
      var r := last.value;
      if IsLocked(r.status) then Some(Locked)
      else if cur.None? then
        if r.status == Uninstalled then Some(Absent) else Some(Unmanaged)
      else if VerifyReleaseObject(cur.value, r) != Verified then Some(Unmanaged)
      else match r.status
        case StatusFailed => Some(Failed)
        case Uninstalled => Some(Absent)
        case Deployed => DeployedState(req, st, cur.value, r, diff)
        case _ => None
  }

  /** The state, or None if it cannot be determined. */
  function Determine(req: Request, st: Status, sto: Storage, down: bool, diff: Diff): Option<ReleaseStatus> {
    if down then None
    else StateOf(req, st, Latest(st.history), Last(sto, req.spec.name), diff)
  }

  /** The status afterwards: looking up the latest snapshot sorts the history in
      place. */
  function SortedByLookup(req: Request, st: Status, sto: Storage, down: bool): Status {
    var last := Last(sto, req.spec.name);
    if down || last.None? || IsLocked(last.value.status) then st
    else st.(history := Sorted(st.history))
  }

  /** The answer reads the last action and the observed digests of the status, and
      the latest snapshot. */
  lemma StateOfSame(req: Request, st: Status, st': Status, cur: Option<Snapshot>, last: Option<Release>, diff: Diff)
    requires st'.lastAction == st.lastAction
    requires st'.postRenderersDigest == st.postRenderersDigest && st'.commonMetadataDigest == st.commonMetadataDigest
    ensures StateOf(req, st', cur, last, diff) == StateOf(req, st, cur, last, diff)
  {
  }

  /** Sorting the history does not change the answer. */
  lemma DetermineSorted(req: Request, st: Status, sto: Storage, down: bool, diff: Diff)
    ensures Determine(req, st.(history := Sorted(st.history)), sto, down, diff) == Determine(req, st, sto, down, diff)
  {
    LatestSorted(st.history);
    StateOfSame(req, st, st.(history := Sorted(st.history)), Latest(st.history), Last(sto, req.spec.name), diff);
  }
}
