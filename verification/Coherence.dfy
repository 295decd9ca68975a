/** The snapshot history as a cache of the Helm storage: the latest snapshot
    mirrors the last release in storage, and every action keeps it so. */
module Coherence {
  import opened Api
  import opened Snapshots
  import opened Releases
  import opened Recording
  import opened Requests
  import opened State
  import opened Actions
  import opened AtomicRelease
  import opened Runs

  /** The snapshot says of the release everything a snapshot can say. */
  ghost predicate Mirrors(s: Snapshot, r: Release) {
    && !s.Legacy()
    && s.name == r.name && s.ns == r.ns && s.version == r.version && s.status == r.status
    && s.configDigest.Digest? && s.configDigest.content == r.config
    && s.digest.Digest? && s.digest.content == Encoded(ObserveRelease(r).(oci := s.oci))
  }

  /** A snapshot of the release, whichever controller version took it. */
  ghost predicate Matches(s: Snapshot, r: Release) {
    s.version == r.version && (s.Legacy() || Mirrors(s, r))
  }

  ghost predicate Named(h: seq<Snapshot>, name: string, ns: string) {
    forall s | s in h :: s.name == name && s.ns == ns
  }

  ghost predicate StoreNamed(sto: Storage, name: string, ns: string) {
    WellKeyed(sto) && forall k | k in sto && k.name == name :: sto[k].ns == ns
  }

  /** History and storage agree. */
  ghost predicate Coherent(name: string, ns: string, h: seq<Snapshot>, sto: Storage) {
    && Distinct(h) && Named(h, name, ns) && StoreNamed(sto, name, ns)
    && (h != [] && Last(sto, name).Some? ==> Matches(Latest(h).value, Last(sto, name).value))
  }

  lemma MatchesVerifies(s: Snapshot, r: Release)
    requires Matches(s, r)
    ensures VerifyReleaseObject(s, r) == Verified
  {
  }

  // ---------- Replacing and prepending snapshots ----------

  lemma ReplaceKeeps(h: seq<Snapshot>, i: nat, s: Snapshot, name: string, ns: string)
    requires i < |h| && Distinct(h) && Named(h, name, ns)
    requires s.name == name && s.ns == ns && s.version == h[i].version
    ensures Distinct(h[i := s]) && Named(h[i := s], name, ns)
    ensures Latest(h[i := s]) == if Latest(h) == Some(h[i]) then Some(s) else Latest(h)
  {
    ReplaceLatest(h, i, s);
  }

  lemma PrependKeeps(h: seq<Snapshot>, s: Snapshot, name: string, ns: string)
    requires Distinct(h) && Named(h, name, ns)
    requires s.name == name && s.ns == ns && forall x | x in h :: x.version != s.version
    ensures Distinct([s] + h) && Named([s] + h, name, ns)
    ensures h != [] && s.version < Latest(h).value.version ==> Latest([s] + h) == Latest(h)
    ensures h == [] || s.version > Latest(h).value.version ==> Latest([s] + h) == Some(s)
  {
    var h' := [s] + h;
    assert forall j | 1 <= j < |h'| :: h'[j] == h[j - 1] && h'[j] in h;
    if h != [] {
      LatestIsTop(h);
    }
    if h != [] && s.version < Latest(h).value.version {
      assert Latest(h).value in h';
      LatestUnique(h', Latest(h).value);
    } else if h == [] || s.version > Latest(h).value.version {
      assert h'[0] in h';
      LatestUnique(h', s);
    }
  }

  lemma FindByVersion(h: seq<Snapshot>, name: string, ns: string, version: int)
    requires Named(h, name, ns)
    ensures var i := FindTarget(h, name, ns, version);
            (i < |h| && h[i].version == version) || (forall x | x in h :: x.version != version)
  {
  }

  // ---------- Storage after a write ----------

  lemma PutLast(sto: Storage, name: string, r: Release)
    requires WellKeyed(sto) && r.name == name
    ensures var l, l' := Last(sto, name), Last(ApplyOne(sto, Put(r)), name);
            if l.None? || l.value.version <= r.version then l' == Some(r) else l' == l
    ensures WellKeyed(ApplyOne(sto, Put(r)))
  {
    var sto' := ApplyOne(sto, Put(r));
    var l := Last(sto, name);
    if l.Some? {
      LastGreatest(sto, name);
    } else {
      forall k | k in sto ensures k.name != name {
        assert k.name == name ==> k.version in StoredVersions(sto, name);
      }
    }
    if l.None? || l.value.version <= r.version {
      LastIs(sto', name, r.version);
    } else {
      LastIs(sto', name, l.value.version);
    }
  }

  lemma DelLast(sto: Storage, name: string, r: Release)
    requires WellKeyed(sto) && r.name == name
    requires Last(sto, name).Some? && r.version < Last(sto, name).value.version
    ensures Last(ApplyOne(sto, Del(r)), name) == Last(sto, name)
    ensures WellKeyed(ApplyOne(sto, Del(r)))
  {
    LastGreatest(sto, name);
    LastIs(ApplyOne(sto, Del(r)), name, Last(sto, name).value.version);
  }

  // ---------- Observed writes ----------

  /** A write that an observer can follow: of the object's own release, never
      removing the last release, and, unless it is a rollback, never adding a
      newer one. */
  ghost predicate TameWrite(o: Observer, name: string, ns: string, sto: Storage, w: Write) {
    && w.rls.name == name && w.rls.ns == ns
    && Last(sto, name).Some?
    && (w.Put? && !o.RollbackObserver? ==> w.rls.version <= Last(sto, name).value.version)
    && (w.Del? ==> w.rls.version < Last(sto, name).value.version)
  }

  ghost predicate Tame(o: Observer, name: string, ns: string, sto: Storage, ws: seq<Write>) {
    ws != [] ==>
      && Tame(o, name, ns, sto, ws[..|ws| - 1])
      && TameWrite(o, name, ns, Apply(sto, ws[..|ws| - 1]), ws[|ws| - 1])
  }

  lemma StoreNamedKept(sto: Storage, name: string, ns: string, w: Write)
    requires StoreNamed(sto, name, ns) && w.rls.name == name && w.rls.ns == ns
    ensures StoreNamed(ApplyOne(sto, w), name, ns)
  {
  }

  /** A write below the last release does not disturb the latest snapshot. */
  lemma LowerCoherent(h: seq<Snapshot>, sto: Storage, w: Write, name: string, ns: string)
    requires Coherent(name, ns, h, sto) && Last(sto, name).Some?
    requires w.rls.name == name && w.rls.ns == ns && w.rls.version < Last(sto, name).value.version
    ensures Coherent(name, ns, h, ApplyOne(sto, w)) && Last(ApplyOne(sto, w), name) == Last(sto, name)
  {
    StoreNamedKept(sto, name, ns, w);
    if w.Put? {
      PutLast(sto, name, w.rls);
    } else {
      DelLast(sto, name, w.rls);
    }
  }

  /** Replacing the snapshot of the written version keeps coherence. */
  lemma ReplacedCoherent(h: seq<Snapshot>, i: nat, s: Snapshot, sto: Storage, w: Write, name: string, ns: string)
    requires Coherent(name, ns, h, sto) && Last(sto, name).Some? && i < |h|
    requires w.rls.name == name && w.rls.ns == ns && h[i].version == w.rls.version && Mirrors(s, w.rls)
    requires w.Del? ==> w.rls.version < Last(sto, name).value.version
    ensures Coherent(name, ns, h[i := s], ApplyOne(sto, w)) && Last(ApplyOne(sto, w), name).Some?
  {
    ReplaceKeeps(h, i, s, name, ns);
    LatestIsTop(h);
    StoreNamedKept(sto, name, ns, w);
    if w.Put? {
      PutLast(sto, name, w.rls);
    } else {
      DelLast(sto, name, w.rls);
    }
  }

  lemma PrependedCoherent(h: seq<Snapshot>, s: Snapshot, sto: Storage, w: Write, name: string, ns: string)
    requires Coherent(name, ns, h, sto) && h != [] && Last(sto, name).Some?
    requires w.rls.name == name && w.rls.ns == ns && Mirrors(s, w.rls)
    requires forall x | x in h :: x.version != w.rls.version
    requires w.Del? ==> w.rls.version < Last(sto, name).value.version
    ensures Coherent(name, ns, [s] + h, ApplyOne(sto, w)) && Last(ApplyOne(sto, w), name).Some?
  {
    PrependKeeps(h, s, name, ns);
    LatestIsTop(h);
    assert Latest(h).value in h;
    StoreNamedKept(sto, name, ns, w);
    if w.Put? {
      PutLast(sto, name, w.rls);
    } else {
      DelLast(sto, name, w.rls);
    }
  }

  lemma SortedCoherent(h: seq<Snapshot>, sto: Storage, name: string, ns: string)
    requires Coherent(name, ns, h, sto)
    ensures Coherent(name, ns, Sorted(h), sto)
    ensures h != [] ==> Sorted(h) != [] && Latest(h) == Some(Sorted(h)[0])
  {
    SortedMembers(h);
    SortedDistinct(h);
    LatestSorted(h);
  }

  lemma RetakeMirrors(canonical: string, r: Release, prior: Snapshot, a: ReleaseAction, hooks: Option<TestHooks>)
    ensures Mirrors(Retake(canonical, r, prior, a).(testHooks := hooks), r)
    ensures Mirrors(Retake(canonical, r, prior, a), r)
    ensures Mirrors(ToSnapshot(canonical, ObserveRelease(r)), r)
  {
  }

  /** What an observer makes of the history when a write of a recorded release
      happens: its first snapshot says what the release is now and keeps the
      artifact digest; a rollback or uninstall keeps its test results, an unlock
      drops them; nothing else changes. */
  lemma ObserverContract(canonical: string, o: Observer, h: seq<Snapshot>, r: Release, i: nat)
    requires !o.TestObserver? && i < |h| && h[i].Targets(r.name, r.ns, r.version)
    requires forall j | 0 <= j < i :: !h[j].Targets(r.name, r.ns, r.version)
    ensures var h' := ObserveOne(canonical, o, h, r);
            && |h'| == |h| && (forall j | 0 <= j < |h| && j != i :: h'[j] == h[j])
            && Mirrors(h'[i], r) && h'[i].oci == h[i].oci
            && h'[i].chartName == r.chartName && h'[i].chartVersion == r.chartVersion
            && h'[i].testHooks == (if o.UnlockObserver? then None else h[i].testHooks)
            && h'[i].action == (if o.UnlockObserver? then h[i].action else if o.RollbackObserver? then ActionRollback else o.action)
  {
    assert FindTarget(h, r.name, r.ns, r.version) == i;
  }

  /** What it makes of a write of a release that is not recorded: a rollback puts a
      new snapshot in front, and nothing else does anything. */
  lemma ObserverIgnores(canonical: string, o: Observer, h: seq<Snapshot>, r: Release)
    requires !o.TestObserver? && forall s | s in h :: !s.Targets(r.name, r.ns, r.version)
    ensures var h' := ObserveOne(canonical, o, h, r);
            if o.RollbackObserver?
            then |h'| == |h| + 1 && h'[1..] == h && Mirrors(h'[0], r) && h'[0].testHooks.None? && h'[0].oci == ""
            else h' == h
  {
    assert FindTarget(h, r.name, r.ns, r.version) == |h|;
  }

  /** The results of tests are taken for the latest release only. */
  lemma TestObserverContract(canonical: string, filters: seq<Filter>, h: seq<Snapshot>, r: Release)
    requires h != []
    ensures var h', s := ObserveOne(canonical, TestObserver(filters), h, r), Sorted(h);
            && |h'| == |h| == |s| && (forall j | 1 <= j < |h| :: h'[j] == s[j])
            && (if s[0].Targets(r.name, r.ns, r.version)
                then Mirrors(h'[0], r) && h'[0].oci == s[0].oci && h'[0].action == s[0].action
                     && h'[0].testHooks == Some(SelectedTests(r.hooks, filters))
                else h'[0] == s[0])
  {
    SortedMembers(h);
  }

  lemma ObserveTestKeeps(canonical: string, filters: seq<Filter>, h: seq<Snapshot>, sto: Storage, w: Write, name: string, ns: string)
    requires Coherent(name, ns, h, sto) && h != [] && TameWrite(TestObserver(filters), name, ns, sto, w)
    ensures var h', sto' := ObserveTest(canonical, h, w.rls, filters), ApplyOne(sto, w);
            Coherent(name, ns, h', sto') && h' != [] && Last(sto', name).Some?
  {
    SortedCoherent(h, sto, name, ns);
    var s := Sorted(h);
    assert s[0] in s;
    if s[0].Targets(w.rls.name, w.rls.ns, w.rls.version) {
      RetakeMirrors(canonical, w.rls, s[0], s[0].action, Some(SelectedTests(w.rls.hooks, filters)));
      ReplacedCoherent(s, 0, ObserveTest(canonical, h, w.rls, filters)[0], sto, w, name, ns);
    } else {
      LowerCoherent(s, sto, w, name, ns);
    }
  }

  lemma ObserveOneKeeps(canonical: string, o: Observer, h: seq<Snapshot>, sto: Storage, w: Write, name: string, ns: string)
    requires Coherent(name, ns, h, sto) && h != [] && TameWrite(o, name, ns, sto, w)
    ensures var h', sto' := ObserveOne(canonical, o, h, w.rls), ApplyOne(sto, w);
            Coherent(name, ns, h', sto') && h' != [] && Last(sto', name).Some?
  {
    if o.TestObserver? {
      ObserveTestKeeps(canonical, o.filters, h, sto, w, name, ns);
    } else {
      var r := w.rls;
      var i := FindTarget(h, r.name, r.ns, r.version);
      var h' := ObserveOne(canonical, o, h, r);
      FindByVersion(h, name, ns, r.version);
      if i < |h| {
        RetakeMirrors(canonical, r, h[i], if o.UninstallObserver? then o.action else if o.UnlockObserver? then h[i].action else ActionRollback,
                      h[i].testHooks);
        ReplacedCoherent(h, i, h'[i], sto, w, name, ns);
      } else if o.RollbackObserver? {
        RetakeMirrors(canonical, r, h[0], ActionNone, None);
        PrependedCoherent(h, h'[0], sto, w, name, ns);
      } else {
        LatestIsTop(h);
        assert Latest(h).value in h;
        LowerCoherent(h, sto, w, name, ns);
      }
    }
  }

  /** An action whose writes are tame keeps history and storage coherent. */
  lemma {:induction false} ObserveAllKeeps(canonical: string, o: Observer, h: seq<Snapshot>, sto: Storage, ws: seq<Write>,
                                           name: string, ns: string)
    requires Coherent(name, ns, h, sto) && h != [] && Last(sto, name).Some? && Tame(o, name, ns, sto, ws)
    ensures var h', sto' := ObserveAll(canonical, o, h, ws), Apply(sto, ws);
            Coherent(name, ns, h', sto') && h' != [] && Last(sto', name).Some?
  {
    if ws != [] {
      var init := ws[..|ws| - 1];
      ObserveAllKeeps(canonical, o, h, sto, init, name, ns);
      ObserveOneKeeps(canonical, o, ObserveAll(canonical, o, h, init), Apply(sto, init), ws[|ws| - 1], name, ns);
    }
  }

  // ---------- Batches ----------

  ghost predicate AllOurs(ws: seq<Write>, name: string, ns: string) {
    forall w | w in ws :: w.rls.name == name && w.rls.ns == ns
  }

  /** The writes of an install or upgrade, if there are any, leave a release of a
      new greatest version as the last one in storage. */
  ghost predicate NewTop(name: string, ns: string, sto: Storage, ws: seq<Write>) {
    && AllOurs(ws, name, ns)
    && (ws != [] ==>
          var last := Last(Apply(sto, ws), name);
          && last.Some?
          && (forall k | k in sto && k.name == name :: k.version < last.value.version)
          && (forall w | w in ws :: w.rls.version <= last.value.version))
  }

  lemma {:induction false} TameOurs(o: Observer, name: string, ns: string, sto: Storage, ws: seq<Write>)
    requires Tame(o, name, ns, sto, ws)
    ensures AllOurs(ws, name, ns)
  {
    if ws != [] {
      TameOurs(o, name, ns, sto, ws[..|ws| - 1]);
      assert ws == ws[..|ws| - 1] + [ws[|ws| - 1]];
    }
  }

  lemma ObserveOneNames(canonical: string, o: Observer, h: seq<Snapshot>, r: Release, name: string, ns: string)
    requires Distinct(h) && Named(h, name, ns) && r.name == name && r.ns == ns
    ensures var h' := ObserveOne(canonical, o, h, r);
            Distinct(h') && Named(h', name, ns)
  {
    var h' := ObserveOne(canonical, o, h, r);
    if o.TestObserver? {
      SortedMembers(h);
      SortedDistinct(h);
      if h != [] && Sorted(h)[0].Targets(r.name, r.ns, r.version) {
        ReplaceKeeps(Sorted(h), 0, h'[0], name, ns);
      }
    } else {
      var i := FindTarget(h, r.name, r.ns, r.version);
      FindByVersion(h, name, ns, r.version);
      if i < |h| {
        ReplaceKeeps(h, i, h'[i], name, ns);
      } else if o.RollbackObserver? {
        PrependKeeps(h, h'[0], name, ns);
      }
    }
  }

  /** Following writes of one release, an observer keeps versions distinct. */
  lemma {:induction false} ObserveAllNames(canonical: string, o: Observer, h: seq<Snapshot>, ws: seq<Write>, name: string, ns: string)
    requires Distinct(h) && Named(h, name, ns) && AllOurs(ws, name, ns)
    ensures var h' := ObserveAll(canonical, o, h, ws);
            Distinct(h') && Named(h', name, ns)
  {
    if ws != [] {
      var init, last := ws[..|ws| - 1], ws[|ws| - 1];
      assert last in ws;
      ObserveAllNames(canonical, o, h, init, name, ns);
      ObserveOneNames(canonical, o, ObserveAll(canonical, o, h, init), last.rls, name, ns);
    }
  }

  lemma {:induction false} ApplyNamed(sto: Storage, ws: seq<Write>, name: string, ns: string)
    requires StoreNamed(sto, name, ns) && AllOurs(ws, name, ns)
    ensures StoreNamed(Apply(sto, ws), name, ns)
  {
    if ws != [] {
      ApplyNamed(sto, ws[..|ws| - 1], name, ns);
      StoreNamedKept(Apply(sto, ws[..|ws| - 1]), name, ns, ws[|ws| - 1]);
    }
  }

  /** What is stored of a version after some writes is what was last observed of
      it or, if the writes are of other versions, what was stored before. */
  lemma {:induction false} StoredAsObserved(sto: Storage, ws: seq<Write>, name: string, ns: string, version: int)
    requires AllOurs(ws, name, ns)
    ensures var before, after := Get(sto, name, version), Get(Apply(sto, ws), name, version);
            if version in Observe(ws) then after.Some? ==> Observe(ws)[version] == ObserveRelease(after.value)
            else after == before
  {
    if ws != [] {
      var init, last := ws[..|ws| - 1], ws[|ws| - 1];
      assert last in ws;
      StoredAsObserved(sto, init, name, ns, version);
    }
  }

  lemma {:induction false} ObserveNames(ws: seq<Write>, name: string, ns: string)
    requires AllOurs(ws, name, ns)
    ensures forall v | v in Observe(ws) :: Observe(ws)[v].name == name && Observe(ws)[v].ns == ns
  {
    if ws != [] {
      ObserveNames(ws[..|ws| - 1], name, ns);
      assert ws[|ws| - 1] in ws;
    }
  }

  lemma SameSubjectsNamed(a: seq<Snapshot>, b: seq<Snapshot>, name: string, ns: string)
    requires SameSubjects(a, b) && Named(a, name, ns)
    ensures Named(b, name, ns)
  {
  }

  /** What a batch with a new greatest version observed of it. */
  lemma NewTopObserved(sto: Storage, ws: seq<Write>, name: string, ns: string)
    requires WellKeyed(sto) && NewTop(name, ns, sto, ws) && ws != []
    ensures var r, obs := Last(Apply(sto, ws), name).value, Observe(ws);
            && obs.Keys != {} && VersionKeyed(obs)
            && Max(obs.Keys) == r.version && obs[r.version] == ObserveRelease(r)
  {
    ApplyWellKeyed(sto, ws);
    LastGreatest(Apply(sto, ws), name);
    var r := Last(Apply(sto, ws), name).value;
    ObserveKeys(ws);
    StoredAsObserved(sto, ws, name, ns, r.version);
  }

  /** The latest snapshot, if there is one, is of the version that is last in
      storage. It may say anything of it. */
  ghost predicate UpToVersion(name: string, h: seq<Snapshot>, sto: Storage) {
    h == [] || (Last(sto, name).Some? && Latest(h).value.version == Last(sto, name).value.version)
  }

  /** A batch with a new greatest version is above everything recorded. */
  lemma NewTopAbove(h: seq<Snapshot>, sto: Storage, ws: seq<Write>, name: string, ns: string)
    requires WellKeyed(sto) && UpToVersion(name, h, sto) && NewTop(name, ns, sto, ws) && ws != []
    ensures forall s | s in h :: s.version < Last(Apply(sto, ws), name).value.version
  {
    if h != [] {
      LatestIsTop(h);
      LastGreatest(sto, name);
    }
  }

  /** Recording a batch with a new greatest version makes history and storage
      coherent, even if they had come to differ in all but the version. */
  lemma BatchHeals(canonical: string, h: seq<Snapshot>, sto: Storage, ws: seq<Write>, oci: string, action: ReleaseAction,
                   name: string, ns: string)
    requires Distinct(h) && Named(h, name, ns) && StoreNamed(sto, name, ns) && UpToVersion(name, h, sto)
    requires NewTop(name, ns, sto, ws) && ws != []
    ensures Coherent(name, ns, Record(canonical, Observe(ws), h, oci, action), Apply(sto, ws))
    ensures Record(canonical, Observe(ws), h, oci, action) != []
  {
    ApplyNamed(sto, ws, name, ns);
    ObserveKeys(ws);
    NewTopObserved(sto, ws, name, ns);
    NewTopAbove(h, sto, ws, name, ns);
    var obs, r := Observe(ws), Last(Apply(sto, ws), name).value;
    var top := Head(canonical, obs, oci, action);
    ObserveNames(ws, name, ns);
    RecordBatch(canonical, obs, h, oci, action);
    SameSubjectsNamed([top] + h, Record(canonical, obs, h, oci, action), name, ns);
    assert Mirrors(top, r);
  }

  /** Recording a batch with a new greatest version keeps history and storage
      coherent. */
  lemma BatchKeeps(canonical: string, h: seq<Snapshot>, sto: Storage, ws: seq<Write>, oci: string, action: ReleaseAction,
                   name: string, ns: string)
    requires Coherent(name, ns, h, sto) && (h == [] || Last(sto, name).Some?) && NewTop(name, ns, sto, ws)
    ensures Coherent(name, ns, Record(canonical, Observe(ws), h, oci, action), Apply(sto, ws))
    ensures ws != [] ==> Record(canonical, Observe(ws), h, oci, action) != []
  {
    ObserveKeys(ws);
    if ws != [] {
      BatchHeals(canonical, h, sto, ws, oci, action, name, ns);
    }
  }

  // ---------- Older snapshots ----------

  /** The snapshot at `j` is the newest one, of those that the batch rewrote. */
  ghost predicate NewestRewritten(h: seq<Snapshot>, obs: Observed, j: nat)
    requires j < |h|
  {
    && h[j].version in obs
    && forall i | 0 <= i < |h| && h[i].version in obs :: h[i].version <= h[j].version
  }

  lemma RefreshedExactly(canonical: string, h: seq<Snapshot>, ws: seq<Write>, oci: string, action: ReleaseAction,
                         name: string, ns: string, j: nat)
    requires Distinct(h) && Named(h, name, ns) && AllOurs(ws, name, ns) && ws != [] && j < |h|
    requires Observe(ws).Keys != {} && forall s | s in h :: s.version < Max(Observe(ws).Keys)
    ensures RefreshedAt(canonical, Observe(ws), h, oci, action) == j + 1 <==> NewestRewritten(h, Observe(ws), j)
  {
    var obs := Observe(ws);
    ObserveKeys(ws);
    ObserveNames(ws, name, ns);
    RecordShape(canonical, obs, h, oci, action);
    var i := RefreshedAt(canonical, obs, h, oci, action);
    forall k | 0 <= k < |h| && h[k].version in obs ensures i > 0 && h[k].version <= h[i - 1].version {
      assert h[k] in h;
      RefreshedIsNewest(canonical, obs, h, oci, action, k);
    }
  }

  /** The snapshot of an older release after a batch with a new greatest version:
      it mirrors what is now stored if it is the newest one that the batch
      rewrote, and is as it was otherwise. */
  lemma OlderSnapshot(canonical: string, h: seq<Snapshot>, sto: Storage, ws: seq<Write>, oci: string, action: ReleaseAction,
                      name: string, ns: string, j: nat)
    requires Distinct(h) && Named(h, name, ns) && AllOurs(ws, name, ns) && ws != [] && j < |h|
    requires Observe(ws).Keys != {} && forall s | s in h :: s.version < Max(Observe(ws).Keys)
    ensures var h', after := Record(canonical, Observe(ws), h, oci, action), Get(Apply(sto, ws), name, h[j].version);
            && |h'| == |h| + 1 && SameSubject(h[j], h'[j + 1])
            && (NewestRewritten(h, Observe(ws), j) ==> (after.Some? ==> Mirrors(h'[j + 1], after.value)))
            && (!NewestRewritten(h, Observe(ws), j) ==> h'[j + 1] == h[j])
  {
    var obs := Observe(ws);
    ObserveKeys(ws);
    ObserveSerialised(ws);
    RecordSubjects(canonical, obs, h, oci, action);
    RecordShape(canonical, obs, h, oci, action);
    RefreshedExactly(canonical, h, ws, oci, action, name, ns, j);
    StoredAsObserved(sto, ws, name, ns, h[j].version);
    assert ([Head(canonical, obs, oci, action)] + h)[j + 1] == h[j];
  }

  lemma {:induction false} ObserveSerialised(ws: seq<Write>)
    ensures forall v | v in Observe(ws) :: Observe(ws)[v].oci == "" && Observe(ws)[v].action == ActionNone
  {
    if ws != [] {
      ObserveSerialised(ws[..|ws| - 1]);
    }
  }

  /** Exactly when a release recorded before an upgrade can still be verified, and
      so rolled back to, after it: it must not have been deleted, and if it was
      rewritten as something else, no newer recorded release was. */
  lemma OlderVerifiesExactly(canonical: string, h: seq<Snapshot>, sto: Storage, ws: seq<Write>, oci: string,
                             action: ReleaseAction, name: string, ns: string, j: nat)
    requires Distinct(h) && Named(h, name, ns) && AllOurs(ws, name, ns) && ws != [] && j < |h|
    requires Observe(ws).Keys != {} && forall s | s in h :: s.version < Max(Observe(ws).Keys)
    requires Get(sto, name, h[j].version).Some? && Mirrors(h[j], Get(sto, name, h[j].version).value)
    ensures var h', before := Record(canonical, Observe(ws), h, oci, action), Get(sto, name, h[j].version);
            var after := Get(Apply(sto, ws), name, h[j].version);
            && |h'| == |h| + 1
            && VerifySnapshot(Apply(sto, ws), Some(h'[j + 1]), false) ==
                 if after.None? then Disappeared
                 else if NewestRewritten(h, Observe(ws), j) || ObserveRelease(after.value) == ObserveRelease(before.value)
                 then Verified
                 else NotObserved
  {
    OlderSnapshot(canonical, h, sto, ws, oci, action, name, ns, j);
    assert h[j] in h;
  }

  // ---------- Actions ----------

  ghost predicate Agrees(req: Request, w: World) {
    Coherent(req.spec.name, req.spec.ns, w.status.history, w.storage)
  }

  ghost predicate Purged(req: Request, sto: Storage, ws: seq<Write>) {
    AllOurs(ws, req.spec.name, req.spec.ns) && Last(Apply(sto, ws), req.spec.name).None?
  }

  /** Helm writes what the action it runs may write. An uninstall either keeps
      the release history or removes all of it. */
  ghost predicate Behaved(req: Request, a: Action, sto: Storage, helm: HelmRun) {
    var name, ns, ws := req.spec.name, req.spec.ns, helm.writes;
    match a
    case Install => NewTop(name, ns, sto, ws)
    case Upgrade => NewTop(name, ns, sto, ws)
    case Test => Tame(TestObserver(req.spec.testFilters), name, ns, sto, ws)
    case Rollback => Tame(RollbackObserver, name, ns, sto, ws)
    case UninstallRemediation =>
      Tame(UninstallObserver(ActionUninstallRemediation), name, ns, sto, ws) || Purged(req, sto, ws)
    case Unlock => true
    case CorrectDrift => true
  }

  lemma FinishAgrees(req: Request, st: Status, sto: Storage, r: Remediation, retry: bool, helm: HelmRun)
    requires Agrees(req, World(st, sto))
    ensures Agrees(req, FinishRelease(req, st, sto, r, retry, helm).world)
  {
    SortedCoherent(st.history, sto, req.spec.name, req.spec.ns);
  }

  lemma ReleaseAgrees(req: Request, a: Action, w: World, down: bool, helm: HelmRun)
    requires a.Install? || a.Upgrade?
    requires Agrees(req, w) && Behaved(req, a, w.storage, helm)
    requires a.Upgrade? ==> w.status.history == [] || Last(w.storage, req.spec.name).Some?
    ensures Agrees(req, Execute(req, a, w, down, helm).world)
  {
    var oci, ws := w.status.lastAttemptedRevisionDigest, helm.writes;
    if a.Install? {
      BatchKeeps(req.canonical, [], w.storage, ws, oci, ActionInstall, req.spec.name, req.spec.ns);
      var h := Record(req.canonical, Observe(ws), [], oci, ActionInstall);
      FinishAgrees(req, w.status.(lastAction := ActionInstall, history := h), Apply(w.storage, ws),
                   req.spec.installRemediation, MustRetry(req.spec.installStrategy, req.defaultToRetry), helm);
    } else {
      BatchKeeps(req.canonical, w.status.history, w.storage, ws, oci, ActionUpgrade, req.spec.name, req.spec.ns);
      var h := Record(req.canonical, Observe(ws), w.status.history, oci, ActionUpgrade);
      FinishAgrees(req, w.status.(lastAction := ActionUpgrade, history := h), Apply(w.storage, ws),
                   req.spec.upgradeRemediation, MustRetry(req.spec.upgradeStrategy, req.defaultToRetry), helm);
    }
  }

  lemma TestObserved(req: Request, h: seq<Snapshot>, sto: Storage, helm: HelmRun)
    requires Coherent(req.spec.name, req.spec.ns, h, sto) && h != []
    requires Behaved(req, Test, sto, helm) && Last(sto, req.spec.name).Some?
    ensures Coherent(req.spec.name, req.spec.ns,
                     Sorted(ObserveAll(req.canonical, TestObserver(req.spec.testFilters), Sorted(h), helm.writes)),
                     Apply(sto, helm.writes))
  {
    var o, name, ns := TestObserver(req.spec.testFilters), req.spec.name, req.spec.ns;
    SortedCoherent(h, sto, name, ns);
    ObserveAllKeeps(req.canonical, o, Sorted(h), sto, helm.writes, name, ns);
    SortedCoherent(ObserveAll(req.canonical, o, Sorted(h), helm.writes), Apply(sto, helm.writes), name, ns);
  }

  lemma TestAgrees(req: Request, w: World, helm: HelmRun)
    requires Agrees(req, w) && Behaved(req, Test, w.storage, helm) && Last(w.storage, req.spec.name).Some?
    ensures Agrees(req, RunTest(req, w, helm).world)
  {
    if w.status.history != [] {
      TestObserved(req, w.status.history, w.storage, helm);
    }
  }

  lemma FinishRollbackAgrees(req: Request, st: Status, sto: Storage, helm: HelmRun, cur: Snapshot)
    requires Agrees(req, World(st, sto))
    ensures Agrees(req, FinishRollback(st, sto, helm, cur).world)
  {
    SortedCoherent(st.history, sto, req.spec.name, req.spec.ns);
  }

  lemma RollbackAgrees(req: Request, w: World, helm: HelmRun)
    requires Agrees(req, w) && Behaved(req, Rollback, w.storage, helm) && Last(w.storage, req.spec.name).Some?
    ensures Agrees(req, RunRollback(req, w, helm).world)
  {
    SortedCoherent(w.status.history, w.storage, req.spec.name, req.spec.ns);
    var cur, s := Latest(w.status.history), Sorted(w.status.history);
    if cur.Some? {
      ObserveAllKeeps(req.canonical, RollbackObserver, s, w.storage, helm.writes, req.spec.name, req.spec.ns);
      var st := w.status.(history := ObserveAll(req.canonical, RollbackObserver, s, helm.writes));
      FinishRollbackAgrees(req, st, Apply(w.storage, helm.writes), helm, cur.value);
    }
  }

  lemma UninstallObserved(req: Request, h: seq<Snapshot>, sto: Storage, helm: HelmRun)
    requires Coherent(req.spec.name, req.spec.ns, h, sto) && h != []
    requires Behaved(req, UninstallRemediation, sto, helm) && Last(sto, req.spec.name).Some?
    ensures Coherent(req.spec.name, req.spec.ns,
                     ObserveAll(req.canonical, UninstallObserver(ActionUninstallRemediation), h, helm.writes),
                     Apply(sto, helm.writes))
  {
    var name, ns := req.spec.name, req.spec.ns;
    if Purged(req, sto, helm.writes) {
      ObserveAllNames(req.canonical, UninstallObserver(ActionUninstallRemediation), h, helm.writes, name, ns);
      ApplyNamed(sto, helm.writes, name, ns);
    } else {
      ObserveAllKeeps(req.canonical, UninstallObserver(ActionUninstallRemediation), h, sto, helm.writes, name, ns);
    }
  }

  lemma UninstallAgrees(req: Request, w: World, helm: HelmRun)
    requires Agrees(req, w) && Behaved(req, UninstallRemediation, w.storage, helm)
    requires Last(w.storage, req.spec.name).Some?
    ensures Agrees(req, RunUninstallRemediation(req, w, helm).world)
  {
    if w.status.history != [] {
      var s := Sorted(w.status.history);
      SortedCoherent(w.status.history, w.storage, req.spec.name, req.spec.ns);
      UninstallObserved(req, s, w.storage, helm);
      SortedCoherent(ObserveAll(req.canonical, UninstallObserver(ActionUninstallRemediation), s, helm.writes),
                     Apply(w.storage, helm.writes), req.spec.name, req.spec.ns);
    }
  }

  lemma UnlockLatest(canonical: string, h: seq<Snapshot>, r: Release)
    requires h != []
    ensures var h', cur := ObserveUnlock(canonical, h, r), Latest(h).value;
            Latest(h') == Some(if cur.Targets(r.name, r.ns, r.version) then Retake(canonical, r, cur, cur.action) else cur)
  {
    var h' := ObserveUnlock(canonical, h, r);
    var i := FindTarget(h, r.name, r.ns, r.version);
    var k := LatestAt(h);
    var k' := LatestAt(h');
    assert forall j | 0 <= j < |h| :: h'[j].version == h[j].version;
    assert k == k';
  }

  lemma UnlockAgrees(req: Request, w: World, down: bool, helm: HelmRun)
    requires Agrees(req, w)
    ensures Agrees(req, RunUnlock(req, w, down, helm).world)
  {
    var name, ns, last := req.spec.name, req.spec.ns, Last(w.storage, req.spec.name);
    if last.Some? {
      LastGreatest(w.storage, name);
      var r := Unlocked(last.value);
      StoreNamedKept(w.storage, name, ns, Put(r));
      if w.status.history != [] {
        ObserveOneKeeps(req.canonical, UnlockObserver, w.status.history, w.storage, Put(r), name, ns);
      }
    }
  }

  lemma ExecuteAgrees(req: Request, a: Action, w: World, down: bool, helm: HelmRun)
    requires Agrees(req, w) && Behaved(req, a, w.storage, helm)
    requires a.Install? || a.Unlock? || a.CorrectDrift? || Last(w.storage, req.spec.name).Some?
    ensures Agrees(req, Execute(req, a, w, down, helm).world)
  {
    match a
    case Install => ReleaseAgrees(req, a, w, down, helm);
    case Upgrade => ReleaseAgrees(req, a, w, down, helm);
    case Test => TestAgrees(req, w, helm);
    case Rollback => RollbackAgrees(req, w, helm);
    case UninstallRemediation => UninstallAgrees(req, w, helm);
    case Unlock => UnlockAgrees(req, w, down, helm);
    case CorrectDrift =>
  }

  // ---------- Runs ----------

  ghost predicate CutFrom(h: seq<Snapshot>, h': seq<Snapshot>) {
    h' == h || (h' <= Sorted(h) && (h != [] ==> h' != []))
  }

  lemma FailedCuts(req: Request, st: Status, sto: Storage, forced: bool, down: bool)
    ensures CutFrom(st.history, DecideFailed(req, st, sto, forced, down).status.history)
  {
  }

  lemma InSyncCuts(req: Request, st: Status, forced: bool)
    ensures CutFrom(st.history, DecideInSync(req, st, forced).status.history)
  {
  }

  /** A decision leaves the history alone, drops it, or cuts it to a prefix of
      the sorted history. */
  lemma DecisionPrefix(req: Request, st: Status, sto: Storage, state: ReleaseStatus, down: bool)
    ensures var h' := ActionForState(req, st, sto, state, down).status.history;
            if state.Unmanaged? then h' == [] else CutFrom(st.history, h')
  {
    var forced, st1 := ForceRequested(req, st), RememberForce(req, st);
    match state
    case InSync => InSyncCuts(req, st1, forced);
    case Failed => FailedCuts(req, st1, sto, forced, down);
    case _ =>
  }

  lemma PrefixCoherent(h: seq<Snapshot>, t: seq<Snapshot>, sto: Storage, name: string, ns: string)
    requires Coherent(name, ns, h, sto) && t <= Sorted(h) && (h != [] ==> t != [])
    ensures Coherent(name, ns, t, sto)
  {
    PrefixLatest(h, t);
    SortedMembers(h);
  }

  lemma DecisionAgrees(req: Request, w: World, state: ReleaseStatus, down: bool)
    requires Agrees(req, w)
    ensures Agrees(req, World(ActionForState(req, w.status, w.storage, state, down).status, w.storage))
  {
    DecisionPrefix(req, w.status, w.storage, state, down);
    var h := ActionForState(req, w.status, w.storage, state, down).status.history;
    if h != w.status.history && !state.Unmanaged? {
      PrefixCoherent(w.status.history, h, w.storage, req.spec.name, req.spec.ns);
    }
  }

  /** The event met no foreign write, and Helm behaved. */
  ghost predicate Undisturbed(req: Request, e: Event) {
    e.turn.foreign.None? && (e.ran.Some? ==> Behaved(req, e.ran.value, e.decided.storage, e.turn.helm))
  }

  /** Where there is no release, the only action is to install. */
  lemma ActionNeedsRelease(req: Request, w: World, e: Event)
    requires Recorded(req, w, e) && e.ran.Some? && Last(e.seen.storage, req.spec.name).None?
    ensures e.ran == Some(Install)
  {
  }

  /** Where history and storage agree, a release with a recorded history is
      never taken for someone else's. */
  lemma NeverUnmanaged(req: Request, st: Status, sto: Storage, down: bool, diff: Diff)
    requires Agrees(req, World(st, sto)) && st.history != []
    ensures Determine(req, st, sto, down, diff) != Some(Unmanaged)
  {
  }

  lemma LookupAgrees(req: Request, w: World, down: bool)
    requires Agrees(req, w)
    ensures Agrees(req, World(SortedByLookup(req, w.status, w.storage, down), w.storage))
  {
    SortedCoherent(w.status.history, w.storage, req.spec.name, req.spec.ns);
  }

  /** A decision on agreeing history and storage leaves them so, and does not take
      a release with a recorded history for someone else's. */
  lemma SeenAgrees(req: Request, w: World, e: Event)
    requires Recorded(req, w, e) && e.turn.foreign.None? && Agrees(req, w)
    ensures Agrees(req, e.decided)
    ensures e.state.Unmanaged? ==> e.seen.status.history == []
  {
    LookupAgrees(req, e.seen, e.turn.lastDown);
    var st := SortedByLookup(req, e.seen.status, e.seen.storage, e.turn.lastDown);
    DecisionAgrees(req, World(st, e.seen.storage), e.state, e.turn.getDown);
    if e.seen.status.history != [] {
      NeverUnmanaged(req, e.seen.status, e.seen.storage, e.turn.lastDown, e.turn.diff);
    }
  }

  lemma EventAgrees(req: Request, w: World, e: Event)
    requires Recorded(req, w, e) && Undisturbed(req, e) && Agrees(req, w)
    ensures Agrees(req, e.after)
  {
    SeenAgrees(req, w, e);
    if e.ran.Some? {
      if Last(e.seen.storage, req.spec.name).None? {
        ActionNeedsRelease(req, w, e);
      }
      ExecuteAgrees(req, e.ran.value, e.decided, e.turn.actionDown, e.turn.helm);
    }
  }

  lemma {:induction false} EventsAgree(req: Request, w: World, events: seq<Event>, n: nat)
    requires Linked(req, w, events) && n <= |events| && Agrees(req, w)
    requires forall e | e in events[..n] :: Undisturbed(req, e)
    ensures Agrees(req, ReachedWorld(w, events[..n]))
    decreases n
  {
    if n > 0 {
      PrefixSnoc(events, n);
      EventsAgree(req, w, events, n - 1);
      LinkedAfter(req, w, events, n - 1);
      EventAgrees(req, ReachedWorld(w, events[..n - 1]), events[n - 1]);
    }
  }

  /** With no foreign writer, a run ends with the storage its events lead to. */
  lemma {:induction false} RunStorage(req: Request, w: World, previous: seq<ReconcilerType>, env: nat -> Turn, n: nat)
    requires forall i :: env(i).foreign.None?
    ensures var o := Reconciling(req, w, previous, env, n);
            o.world.storage == if o.events == [] then w.storage else o.events[|o.events| - 1].after.storage
    decreases Remaining(previous)
  {
    TurnStorage(req, w, previous, env(n));
    match Turning(req, w, previous, env(n))
    case Stop(_, _, _) =>
    case Go(e) =>
      GoShape(req, w, previous, env(n));
      RunStorage(req, e.after, previous + [TypeOf(e.ran.value)], env, n + 1);
  }

  lemma TurnStorage(req: Request, w: World, previous: seq<ReconcilerType>, t: Turn)
    requires t.foreign.None?
    ensures var r := Turning(req, w, previous, t);
            r.Stop? ==> r.world.storage == if r.last.Some? then r.last.value.after.storage else w.storage
  {
    var seen := Seen(w, t);
    var state := Determine(req, seen.status, seen.storage, t.lastDown, t.diff);
    if !t.canceled && state.Some? {
      var (d, e) := Decided(req, seen, state.value, t);
      ProceedStorage(req, d, e, previous, t);
    }
  }

  lemma ProceedStorage(req: Request, d: Decision, e: Event, previous: seq<ReconcilerType>, t: Turn)
    requires e.after == e.decided
    ensures var r := Proceed(req, d, e, previous, t);
            r.Stop? ==> r.last.Some? && r.world.storage == r.last.value.after.storage
  {
  }

  lemma EndsHistory(req: Request, st: Status, o: Outcome)
    requires EndsWith(req, st, o)
    ensures o.world.status.history == st.history || o.world.status.history == Sorted(st.history)
  {
  }

  lemma ReachedStatus(w: World, events: seq<Event>)
    ensures Reached(w, events) == ReachedWorld(w, events).status
  {
  }

  /** An attempt that no other writer disturbs ends with the storage and, up to
      sorting, the history that its events lead to. */
  lemma EndOfAttempt(w: World, a: Attempt)
    requires forall i :: a.env(i).foreign.None?
    ensures var o := Attempted(w, a);
            var reached := ReachedWorld(World(Prepare(a.req, w.status), w.storage), o.events);
            && o.world.storage == reached.storage
            && (o.world.status.history == reached.status.history || o.world.status.history == Sorted(reached.status.history))
  {
    var w' := World(Prepare(a.req, w.status), w.storage);
    RunEnds(a.req, w', [], a.env, 0);
    ReachedStatus(w', Attempted(w, a).events);
    EndsHistory(a.req, Reached(w', Attempted(w, a).events), Attempted(w, a));
    RunStorage(a.req, w', [], a.env, 0);
  }

  /** An attempt for the release that nothing disturbs: no foreign writer, a Helm
      that behaves in the actions that are completed, and no crash that
      separates a write from its recording. */
  ghost predicate Peaceful(name: string, ns: string, w: World, a: Attempt) {
    && a.req.spec.name == name && a.req.spec.ns == ns
    && (forall i :: a.env(i).foreign.None?)
    && forall e | e in Lived(w, a) :: Undisturbed(a.req, e)
  }

  ghost predicate AllPeaceful(name: string, ns: string, w: World, attempts: seq<Attempt>) {
    attempts != [] ==>
      && AllPeaceful(name, ns, w, attempts[..|attempts| - 1])
      && Peaceful(name, ns, After(w, attempts[..|attempts| - 1]), attempts[|attempts| - 1])
  }

  /** The world before event `i`, and the decision of that event. */
  lemma AttemptAgreesUntil(w: World, a: Attempt, i: nat)
    requires Agrees(a.req, w) && (forall j :: a.env(j).foreign.None?) && i <= |Attempted(w, a).events|
    requires forall e | e in Attempted(w, a).events[..i] :: Undisturbed(a.req, e)
    ensures var w', events := World(Prepare(a.req, w.status), w.storage), Attempted(w, a).events;
            && Agrees(a.req, ReachedWorld(w', events[..i])) && (0 < i ==> Agrees(a.req, events[i - 1].after))
            && (i < |events| ==>
                  Agrees(a.req, events[i].decided) && (events[i].state.Unmanaged? ==> events[i].seen.status.history == []))
  {
    var w', events := World(Prepare(a.req, w.status), w.storage), Attempted(w, a).events;
    RunLinked(a.req, w', [], a.env, 0);
    RunSolitary(a.req, w', [], a.env, 0);
    EventsAgree(a.req, w', events, i);
    if i < |events| {
      LinkedAfter(a.req, w', events, i);
      assert events[i] in events;
      SeenAgrees(a.req, ReachedWorld(w', events[..i]), events[i]);
    }
  }

  lemma CompletedAgrees(w: World, a: Attempt)
    requires Agrees(a.req, w) && (forall j :: a.env(j).foreign.None?)
    requires forall e | e in Attempted(w, a).events :: Undisturbed(a.req, e)
    ensures Agrees(a.req, Attempted(w, a).world)
  {
    var w', o := World(Prepare(a.req, w.status), w.storage), Attempted(w, a);
    assert o.events[..|o.events|] == o.events;
    AttemptAgreesUntil(w, a, |o.events|);
    EndOfAttempt(w, a);
    SortedCoherent(ReachedWorld(w', o.events).status.history, o.world.storage, a.req.spec.name, a.req.spec.ns);
  }

  lemma AttemptAgrees(name: string, ns: string, w: World, a: Attempt)
    requires Coherent(name, ns, w.status.history, w.storage) && Peaceful(name, ns, w, a)
    ensures Coherent(name, ns, Survives(w, a).status.history, Survives(w, a).storage)
  {
    if CutsIn(w, a) {
      AttemptAgreesUntil(w, a, a.crash.value.at);
    } else if Crashes(w, a) {
      AttemptAgreesUntil(w, a, a.crash.value.at + 1);
    } else {
      CompletedAgrees(w, a);
    }
  }

  /** The attempt, up to where it crashes, does not take a release with a recorded
      history for someone else's. */
  ghost predicate KnowsItsOwn(w: World, a: Attempt) {
    var events := Attempted(w, a).events;
    forall i | 0 <= i < |events| && i <= |Lived(w, a)| :: events[i].state.Unmanaged? ==> events[i].seen.status.history == []
  }

  lemma AttemptKnows(name: string, ns: string, w: World, a: Attempt)
    requires Coherent(name, ns, w.status.history, w.storage) && Peaceful(name, ns, w, a)
    ensures KnowsItsOwn(w, a)
  {
    var events := Attempted(w, a).events;
    forall i | 0 <= i < |events| && i <= |Lived(w, a)|
      ensures events[i].state.Unmanaged? ==> events[i].seen.status.history == []
    {
      forall e | e in events[..i] ensures Undisturbed(a.req, e) {
        assert events[..i] <= Lived(w, a);
      }
      AttemptAgreesUntil(w, a, i);
    }
  }

  /** History agrees with storage through every sequence of undisturbed attempts,
      whatever they are asked to achieve and wherever they crash without losing
      a write, so none of them takes a release with a recorded history for
      someone else's. */
  lemma {:induction false} HistoryAgreesWithStorage(name: string, ns: string, w: World, attempts: seq<Attempt>)
    requires Coherent(name, ns, w.status.history, w.storage) && AllPeaceful(name, ns, w, attempts)
    ensures Coherent(name, ns, After(w, attempts).status.history, After(w, attempts).storage)
    ensures forall a: Attempt | Peaceful(name, ns, After(w, attempts), a) :: KnowsItsOwn(After(w, attempts), a)
  {
    if attempts != [] {
      var init, last := attempts[..|attempts| - 1], attempts[|attempts| - 1];
      HistoryAgreesWithStorage(name, ns, w, init);
      AttemptAgrees(name, ns, After(w, init), last);
    }
    forall a: Attempt | Peaceful(name, ns, After(w, attempts), a) ensures KnowsItsOwn(After(w, attempts), a) {
      AttemptKnows(name, ns, After(w, attempts), a);
    }
  }
}
