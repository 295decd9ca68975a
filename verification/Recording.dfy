/** How writes to the Helm storage are recorded in the snapshot history: the
    storage observers of the actions, and recordOnObject
    (internal/reconcile/release.go). */
module Recording {
  import opened Api
  import opened Snapshots
  import opened Releases

  /** The first position that targets the given release, or the length. */
  function FindTarget(h: seq<Snapshot>, name: string, ns: string, version: int): (i: nat)
    ensures i <= |h|
    ensures i < |h| ==> h[i].Targets(name, ns, version)
    ensures forall j | 0 <= j < i :: !h[j].Targets(name, ns, version)
  {
    if h == [] || h[0].Targets(name, ns, version) then 0
    else 1 + FindTarget(h[1..], name, ns, version)
  }

  // ---------- Observers ----------

  /** The observer functions, one per action that records writes as they happen. */
  datatype Observer =
    | RollbackObserver
    | UninstallObserver(action: ReleaseAction)
    | UnlockObserver
    | TestObserver(filters: seq<Filter>)

  /** A fresh snapshot of `r` that keeps the artifact digest of `prior`. */
  function Retake(canonical: string, r: Release, prior: Snapshot, action: ReleaseAction): Snapshot {
    ToSnapshot(canonical, ObserveRelease(r).(oci := prior.oci, action := action))
  }

  function ObserveRollback(canonical: string, h: seq<Snapshot>, r: Release): seq<Snapshot> {
    var i := FindTarget(h, r.name, r.ns, r.version);
    if i < |h| then h[i := Retake(canonical, r, h[i], ActionRollback).(testHooks := h[i].testHooks)]
    else [ToSnapshot(canonical, ObserveRelease(r))] + h
  }

  function ObserveUninstall(canonical: string, h: seq<Snapshot>, r: Release, action: ReleaseAction): seq<Snapshot> {
    var i := FindTarget(h, r.name, r.ns, r.version);
    if i < |h| then h[i := Retake(canonical, r, h[i], action).(testHooks := h[i].testHooks)] else h
  }

  function ObserveUnlock(canonical: string, h: seq<Snapshot>, r: Release): seq<Snapshot> {
    var i := FindTarget(h, r.name, r.ns, r.version);
    if i < |h| then h[i := Retake(canonical, r, h[i], h[i].action)] else h
  }

  function ObserveTest(canonical: string, h: seq<Snapshot>, r: Release, filters: seq<Filter>): seq<Snapshot> {
    if h == [] then h else
      SortedMembers(h);
      var s := Sorted(h);
      if s[0].Targets(r.name, r.ns, r.version) then
        s[0 := Retake(canonical, r, s[0], s[0].action).(testHooks := Some(SelectedTests(r.hooks, filters)))]
      else s
  }

  function ObserveOne(canonical: string, o: Observer, h: seq<Snapshot>, r: Release): seq<Snapshot> {
    match o
    case RollbackObserver => ObserveRollback(canonical, h, r)
    case UninstallObserver(action) => ObserveUninstall(canonical, h, r, action)
    case UnlockObserver => ObserveUnlock(canonical, h, r)
    case TestObserver(filters) => ObserveTest(canonical, h, r, filters)
  }

  function ObserveAll(canonical: string, o: Observer, h: seq<Snapshot>, ws: seq<Write>): seq<Snapshot> {
    if ws == [] then h
    else ObserveOne(canonical, o, ObserveAll(canonical, o, h, ws[..|ws| - 1]), ws[|ws| - 1].rls)
  }

  /** Only a rollback adds snapshots. */
  lemma {:induction false} ObserveAllLength(canonical: string, o: Observer, h: seq<Snapshot>, ws: seq<Write>)
    requires !o.RollbackObserver?
    ensures |ObserveAll(canonical, o, h, ws)| == |h|
  {
    if ws != [] {
      ObserveAllLength(canonical, o, h, ws[..|ws| - 1]);
      SortedMembers(ObserveAll(canonical, o, h, ws[..|ws| - 1]));
    }
  }

  // ---------- Batches ----------

  type Observed = map<int, Observation>

  /** The last observation of every version written, deletions included. */
  function Observe(ws: seq<Write>): Observed {
    if ws == [] then map[]
    else Observe(ws[..|ws| - 1])[ws[|ws| - 1].rls.version := ObserveRelease(ws[|ws| - 1].rls)]
  }

  /** The observed versions, other than the greatest, that the history targets. */
  function Refreshable(obs: Observed, h: seq<Snapshot>): set<int>
    requires obs.Keys != {}
  {
    set v | v in obs.Keys && v != Max(obs.Keys) && FindTarget(h, obs[v].name, obs[v].ns, obs[v].version) < |h| :: v
  }

  function Refresh(canonical: string, o: Observation, prior: Snapshot): Snapshot {
    ToSnapshot(canonical, o.(oci := prior.oci)).(testHooks := prior.testHooks)
  }

  /** The new snapshot that a batch puts in front. */
  function Head(canonical: string, obs: Observed, oci: string, action: ReleaseAction): Snapshot
    requires obs.Keys != {}
  {
    ToSnapshot(canonical, obs[Max(obs.Keys)].(oci := oci, action := action))
  }

  /** recordOnObject: the greatest version goes in front, and at most one older
      snapshot is refreshed. */
  function Record(canonical: string, obs: Observed, h: seq<Snapshot>, oci: string, action: ReleaseAction): seq<Snapshot> {
    if obs.Keys == {} then h else
      var h1 := [Head(canonical, obs, oci, action)] + h;
      var stale := Refreshable(obs, h1);
      if stale == {} then h1 else
        var o := obs[Max(stale)];
        var i := FindTarget(h1, o.name, o.ns, o.version);
        assert Max(stale) in stale;
        h1[i := Refresh(canonical, o, h1[i])]
  }

  ghost predicate VersionKeyed(obs: Observed) {
    forall v | v in obs :: obs[v].version == v
  }

  lemma {:induction false} ObserveKeys(ws: seq<Write>)
    ensures VersionKeyed(Observe(ws))
    ensures Observe(ws).Keys == set w | w in ws :: w.rls.version
    ensures Observe(ws).Keys == {} <==> ws == []
  {
    if ws != [] {
      var init, last := ws[..|ws| - 1], ws[|ws| - 1];
      ObserveKeys(init);
      assert ws == init + [last];
      assert last.rls.version in Observe(ws);
    }
  }

  ghost predicate SameSubject(s: Snapshot, s': Snapshot) {
    && s'.name == s.name && s'.ns == s.ns && s'.version == s.version
    && s'.oci == s.oci && s'.testHooks == s.testHooks
  }

  /** Position of the refreshed snapshot after recording; 0 if there is none. */
  ghost function RefreshedAt(canonical: string, obs: Observed, h: seq<Snapshot>, oci: string, action: ReleaseAction): (i: nat)
    requires obs.Keys != {}
    ensures i <= |h|
  {
    var h1 := [Head(canonical, obs, oci, action)] + h;
    var stale := Refreshable(obs, h1);
    if stale == {} then 0 else
      var o := obs[Max(stale)];
      var i := FindTarget(h1, o.name, o.ns, o.version);
      assert Max(stale) in stale;
      i
  }

  /** A batch changes the history in two places at most. */
  lemma RecordShape(canonical: string, obs: Observed, h: seq<Snapshot>, oci: string, action: ReleaseAction)
    requires obs.Keys != {} && VersionKeyed(obs)
    ensures var r, h1 := Record(canonical, obs, h, oci, action), [Head(canonical, obs, oci, action)] + h;
            var i := RefreshedAt(canonical, obs, h, oci, action);
            if i == 0 then r == h1
            else h1[i].version in obs && h1[i].version != Max(obs.Keys)
                 && h1[i].name == obs[h1[i].version].name && h1[i].ns == obs[h1[i].version].ns
                 && r == h1[i := Refresh(canonical, obs[h1[i].version], h1[i])]
  {
  }

  /** The refreshed snapshot is the newest one the batch can refresh. */
  lemma RefreshedIsNewest(canonical: string, obs: Observed, h: seq<Snapshot>, oci: string, action: ReleaseAction, j: nat)
    requires obs.Keys != {} && VersionKeyed(obs) && j < |h|
    requires h[j].version in obs && h[j].version != Max(obs.Keys)
    requires h[j].Targets(obs[h[j].version].name, obs[h[j].version].ns, h[j].version)
    ensures var i := RefreshedAt(canonical, obs, h, oci, action);
            i > 0 && h[j].version <= h[i - 1].version
  {
    var h1 := [Head(canonical, obs, oci, action)] + h;
    var u := h[j].version;
    assert h1[j + 1].Targets(obs[u].name, obs[u].ns, obs[u].version);
    assert u in Refreshable(obs, h1);
    assert Max(Refreshable(obs, h1)) in Refreshable(obs, h1);
  }

  ghost predicate SameSubjects(a: seq<Snapshot>, b: seq<Snapshot>) {
    |a| == |b| && forall k | 0 <= k < |a| :: SameSubject(a[k], b[k])
  }

  lemma SameSubjectsTop(a: seq<Snapshot>, b: seq<Snapshot>)
    requires SameSubjects(a, b) && Distinct(a) && a != [] && IsTop(a, a[0])
    ensures Distinct(b) && IsTop(b, b[0]) && Latest(b) == Some(b[0])
  {
    forall x | x in b ensures x.version <= b[0].version {
      var k :| 0 <= k < |b| && b[k] == x;
      assert a[k] in a;
      assert SameSubject(a[k], b[k]) && SameSubject(a[0], b[0]);
    }
    assert b[0] in b;
    LatestUnique(b, b[0]);
  }

  lemma FrontDistinct(top: Snapshot, h: seq<Snapshot>)
    requires Distinct(h) && forall s | s in h :: s.version < top.version
    ensures Distinct([top] + h) && IsTop([top] + h, top) && Latest([top] + h) == Some(top)
  {
    var h1 := [top] + h;
    assert forall i | 1 <= i < |h1| :: h1[i] == h[i - 1] && h1[i] in h;
    LatestUnique(h1, top);
  }

  lemma RecordSubjects(canonical: string, obs: Observed, h: seq<Snapshot>, oci: string, action: ReleaseAction)
    requires obs.Keys != {} && VersionKeyed(obs)
    ensures var r, h1 := Record(canonical, obs, h, oci, action), [Head(canonical, obs, oci, action)] + h;
            SameSubjects(h1, r) && r[0] == h1[0]
  {
  }

  /** A batch recorded in an empty history leaves its own release and nothing
      else. */
  lemma RecordFirst(canonical: string, ws: seq<Write>, oci: string, action: ReleaseAction)
    requires ws != []
    ensures Observe(ws).Keys != {}
    ensures Record(canonical, Observe(ws), [], oci, action) == [Head(canonical, Observe(ws), oci, action)]
  {
    ObserveKeys(ws);
    RecordSubjects(canonical, Observe(ws), [], oci, action);
  }

  /** Recording a batch whose greatest version is new: it becomes the latest
      snapshot, versions stay distinct, and every older snapshot keeps its
      subject, artifact digest and test hooks. */
  lemma RecordBatch(canonical: string, obs: Observed, h: seq<Snapshot>, oci: string, action: ReleaseAction)
    requires obs.Keys != {} && VersionKeyed(obs)
    requires Distinct(h) && forall s | s in h :: s.version < Max(obs.Keys)
    ensures var r, top := Record(canonical, obs, h, oci, action), Head(canonical, obs, oci, action);
            && SameSubjects([top] + h, r) && r[0] == top
            && Distinct(r) && IsTop(r, top) && Latest(r) == Some(top)
  {
    RecordSubjects(canonical, obs, h, oci, action);
    var top := Head(canonical, obs, oci, action);
    FrontDistinct(top, h);
    SameSubjectsTop([top] + h, Record(canonical, obs, h, oci, action));
  }
}
