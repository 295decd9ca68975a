/** The object that the reconcilers work on, with its snapshot history
    (api/v2/snapshot_types.go, api/v2/helmrelease_types.go), the observing
    storage driver (internal/storage/observer.go), and the recording of
    observed writes (internal/reconcile/release.go). Every method is proved
    against the function that specifies it. */
module Objects {
  import opened Api
  import opened Releases
  import opened Recording
  import S = Snapshots

  class SnapshotHistory {
    var items: seq<Snapshot>

    constructor (h: seq<Snapshot>)
      ensures items == h
    {
      items := h;
    }

    /** Moves the snapshot at `i` to its place among those before it. */
    method SinkIn(i: nat)
      requires i < |items|
      modifies this
      ensures items == S.Insert(old(items)[..i], old(items)[i]) + old(items)[i + 1..]
    {
      ghost var p, x, rest := items[..i], items[i], items[i + 1..];
      ghost var goal := S.Insert(p, x) + rest;
      var j := i;
      assert p[..i] == p;
      while j > 0 && items[j].version > items[j - 1].version
        invariant 0 <= j <= i <= |p|
        invariant items == p[..j] + ([x] + rest)
        invariant goal == S.Insert(p[..j], x) + rest
      {
        assert items[j] == x && items[j - 1] == p[j - 1];
        SinkStep(p[..j], x, rest);
        assert p[..j][..j - 1] == p[..j - 1];
        items := items[j - 1 := items[j]][j := items[j - 1]];
        rest := [p[j - 1]] + rest;
        j := j - 1;
      }
      assert j > 0 ==> p[..j][j - 1] == items[j - 1] && items[j] == x;
      assert goal == p[..j] + [x] + rest;
    }

    method SortByVersion()
      modifies this
      ensures items == S.Sorted(old(items))
    {
      ghost var all := items;
      for i := 0 to |items|
        invariant items == S.Sorted(all[..i]) + all[i..] && |S.Sorted(all[..i])| == i
      {
        SortStep(all, i);
        SinkIn(i);
      }
      assert all[..|all|] == all && all[|all|..] == [];
    }

    /** The newest snapshot; the history is sorted by looking. */
    method Latest() returns (s: Option<Snapshot>)
      modifies this
      ensures s == S.Latest(old(items)) && items == S.Sorted(old(items))
    {
      S.SortedMembers(items);
      SortByVersion();
      s := if items == [] then None else Some(items[0]);
    }

    /** The first position after the latest that may be rolled back to, or the
        length. */
    method FirstQualifying(ignoreTests: bool) returns (i: nat)
      requires items != []
      ensures i == S.FirstQualifying(items, 1, ignoreTests)
    {
      i := 1;
      while i < |items|
        invariant 1 <= i <= |items| && S.FirstQualifying(items, 1, ignoreTests) >= i
      {
        if S.Qualifies(items[i], ignoreTests) {
          return;
        }
        i := i + 1;
      }
    }

    /** The newest snapshot below the latest that may be rolled back to. */
    method Previous(ignoreTests: bool) returns (s: Option<Snapshot>)
      modifies this
      ensures s == S.Previous(old(items), ignoreTests) && items == S.Sorted(old(items))
    {
      S.SortedMembers(items);
      if |items| < 2 {
        S.ShortSorted(items);
        return None;
      }
      SortByVersion();
      var i := FirstQualifying(ignoreTests);
      return if i < |items| then Some(items[i]) else None;
    }

    method Truncate(ignoreTests: bool)
      modifies this
      ensures items == S.Truncate(old(items), ignoreTests)
    {
      if |items| < 2 {
        return;
      }
      S.SortedMembers(items);
      SortByVersion();
      var i := FirstQualifying(ignoreTests);
      if i < |items| {
        items := items[..i + 1];
      } else if |items| > S.DEFAULT_MAX_HISTORY {
        items := items[..S.DEFAULT_MAX_HISTORY];
      }
    }

    method TruncateIgnoringPreviousSnapshots()
      modifies this
      ensures items == S.TruncateIgnoringPrevious(old(items))
    {
      SortByVersion();
      if |items| > S.DEFAULT_MAX_HISTORY {
        items := items[..S.DEFAULT_MAX_HISTORY];
      }
    }

    /** The first position that targets the release, or the length. */
    method Find(name: string, ns: string, version: int) returns (i: nat)
      ensures i == FindTarget(items, name, ns, version)
    {
      i := 0;
      while i < |items|
        invariant i <= |items| && FindTarget(items, name, ns, version) >= i
      {
        if items[i].Targets(name, ns, version) {
          return;
        }
        i := i + 1;
      }
    }

    // ---------- Observers ----------

    method ObserveRollback(canonical: string, r: Release)
      modifies this
      ensures items == Recording.ObserveRollback(canonical, old(items), r)
    {
      var i := Find(r.name, r.ns, r.version);
      if i < |items| {
        items := items[i := Retake(canonical, r, items[i], ActionRollback).(testHooks := items[i].testHooks)];
      } else {
        items := [ToSnapshot(canonical, ObserveRelease(r))] + items;
      }
    }

    method ObserveUninstall(canonical: string, r: Release, action: ReleaseAction)
      modifies this
      ensures items == Recording.ObserveUninstall(canonical, old(items), r, action)
    {
      var i := Find(r.name, r.ns, r.version);
      if i < |items| {
        items := items[i := Retake(canonical, r, items[i], action).(testHooks := items[i].testHooks)];
      }
    }

    method ObserveUnlock(canonical: string, r: Release)
      modifies this
      ensures items == Recording.ObserveUnlock(canonical, old(items), r)
    {
      var i := Find(r.name, r.ns, r.version);
      if i < |items| {
        items := items[i := Retake(canonical, r, items[i], items[i].action)];
      }
    }

    method ObserveTest(canonical: string, r: Release, filters: seq<Filter>)
      modifies this
      ensures items == Recording.ObserveTest(canonical, old(items), r, filters)
    {
      S.SortedMembers(items);
      var latest := Latest();
      if latest.Some? && latest.value.Targets(r.name, r.ns, r.version) {
        var tested := Retake(canonical, r, latest.value, latest.value.action);
        items := items[0 := tested.(testHooks := Some(SelectedTests(r.hooks, filters)))];
      }
    }

    /** Records a batch of observed writes. */
    method RecordObserved(canonical: string, obs: Observed, oci: string, action: ReleaseAction)
      modifies this
      ensures items == Record(canonical, obs, old(items), oci, action)
    {
      if obs.Keys == {} {
        return;
      }
      var versions := SortedVersions(obs.Keys);
      items := [ToSnapshot(canonical, obs[versions[0]].(oci := oci, action := action))] + items;
      ghost var h1 := items;
      for k := 1 to |versions|
        invariant items == h1
        invariant forall j | 0 <= j < k :: versions[j] !in Refreshable(obs, h1)
      {
        var o := obs[versions[k]];
        var i := Find(o.name, o.ns, o.version);
        if i < |items| {
          items := items[i := Refresh(canonical, o, items[i])];
          FirstIsGreatest(versions, obs.Keys, Refreshable(obs, h1), k);
          return;
        }
      }
      NoneIsEmpty(versions, obs.Keys, Refreshable(obs, h1));
    }
  }

  /** One more element sorted. */
  lemma SortStep(all: seq<Snapshot>, i: nat)
    requires i < |all| && |S.Sorted(all[..i])| == i
    ensures var s := S.Sorted(all[..i]) + all[i..];
            && s[..i] == S.Sorted(all[..i]) && s[i] == all[i] && s[i + 1..] == all[i + 1..]
            && S.Sorted(all[..i + 1]) == S.Insert(s[..i], s[i]) && |S.Sorted(all[..i + 1])| == i + 1
  {
    assert all[..i + 1][..i] == all[..i];
    S.SortedMembers(all[..i + 1]);
  }

  /** One swap: the last of `p` goes behind `x`. */
  lemma SinkStep(p: seq<Snapshot>, x: Snapshot, rest: seq<Snapshot>)
    requires p != [] && p[|p| - 1].version < x.version
    ensures var n, y := |p| - 1, p[|p| - 1];
            && (p + ([x] + rest))[n := x][n + 1 := y] == p[..n] + ([x] + ([y] + rest))
            && S.Insert(p, x) + rest == S.Insert(p[..n], x) + ([y] + rest)
  {
  }

  ghost predicate DescendingVersions(vs: seq<int>, keys: set<int>) {
    && (forall i, j | 0 <= i < j < |vs| :: vs[i] > vs[j])
    && (forall i | 0 <= i < |vs| :: vs[i] in keys)
    && (forall v | v in keys :: v in vs)
  }

  /** The versions in descending order. */
  method SortedVersions(keys: set<int>) returns (vs: seq<int>)
    requires keys != {}
    ensures DescendingVersions(vs, keys) && vs != [] && vs[0] == Max(keys)
  {
    var rest := keys;
    vs := [];
    while rest != {}
      invariant rest <= keys && (vs == [] ==> rest == keys) && (vs != [] ==> vs[0] == Max(keys))
      invariant forall i, j | 0 <= i < j < |vs| :: vs[i] > vs[j]
      invariant forall i, v | 0 <= i < |vs| && v in rest :: vs[i] > v
      invariant forall i | 0 <= i < |vs| :: vs[i] in keys
      invariant forall v | v in keys :: v in rest || v in vs
      decreases rest
    {
      var top := Max(rest);
      vs := vs + [top];
      rest := rest - {top};
    }
  }

  /** The first of a descending list that is in a set is its greatest element. */
  lemma FirstIsGreatest(vs: seq<int>, keys: set<int>, some: set<int>, k: nat)
    requires DescendingVersions(vs, keys) && some <= keys && k < |vs|
    requires vs[k] in some && forall j | 0 <= j < k :: vs[j] !in some
    ensures some != {} && Max(some) == vs[k]
  {
  }

  lemma NoneIsEmpty(vs: seq<int>, keys: set<int>, some: set<int>)
    requires DescendingVersions(vs, keys) && some <= keys
    requires forall j | 0 <= j < |vs| :: vs[j] !in some
    ensures some == {}
  {
    assert forall v | v in keys :: v in vs;
    NothingIn(some);
  }

  // ---------- Hooks ----------

  /** Drops the hooks that tests rewrite. */
  method IgnoreHookTestEvents(hooks: seq<Hook>) returns (kept: seq<Hook>)
    ensures kept == WithoutTests(hooks)
  {
    kept := [];
    for i := 0 to |hooks|
      invariant kept == WithoutTests(hooks[..i])
    {
      assert hooks[..i + 1][..i] == hooks[..i];
      if !hooks[i].test {
        kept := kept + [hooks[i]];
      }
    }
    assert hooks[..|hooks|] == hooks;
  }

  /** Whether the filters select a test hook. */
  method IsTestHookSelected(name: string, filters: seq<Filter>) returns (selected: bool)
    ensures selected == Selected(name, filters)
  {
    var hasInclude, included := false, false;
    for i := 0 to |filters|
      invariant forall j | 0 <= j < i :: filters[j].exclude ==> filters[j].name != name
      invariant hasInclude <==> exists j | 0 <= j < i :: !filters[j].exclude
      invariant included <==> exists j | 0 <= j < i :: filters[j] == Filter(name, false)
    {
      var f := filters[i];
      if f.exclude {
        if f.name == name {
          return false;
        }
      } else {
        hasInclude := true;
        if f.name == name {
          included := true;
        }
      }
    }
    selected := !hasInclude || included;
  }

  // ---------- Storage ----------

  class HelmStorage {
    var releases: Storage

    constructor (sto: Storage)
      ensures releases == sto
    {
      releases := sto;
    }
  }

  /** What Helm tries to write, and whether the driver fails it. */
  datatype Try = Try(write: Write, fails: bool)

  /** The tries that succeed. */
  function Persisted(tries: seq<Try>): seq<Write> {
    if tries == [] then []
    else Persisted(tries[..|tries| - 1]) + (if tries[|tries| - 1].fails then [] else [tries[|tries| - 1].write])
  }

  lemma PersistedStep(tries: seq<Try>, i: nat)
    requires i < |tries|
    ensures var ws, ws' := Persisted(tries[..i]), Persisted(tries[..i + 1]);
            if tries[i].fails then ws' == ws
            else ws' != [] && ws'[..|ws'| - 1] == ws && ws'[|ws'| - 1] == tries[i].write
  {
    assert tries[..i + 1][..i] == tries[..i];
  }

  /** Whether writes are collected, or recorded each as it happens. */
  datatype Kind = Batch | Each(observer: Observer)

  /** A storage driver that tells its observer of every write that succeeded, and
      of no other. */
  class ObservingDriver {
    const driver: HelmStorage
    const history: SnapshotHistory
    const kind: Kind
    const canonical: string
    var observed: Observed

    constructor (driver: HelmStorage, history: SnapshotHistory, kind: Kind, canonical: string)
      ensures this.driver == driver && this.history == history && this.kind == kind && this.canonical == canonical
      ensures observed == map[]
    {
      this.driver, this.history, this.kind, this.canonical := driver, history, kind, canonical;
      observed := map[];
    }

    method Notify(r: Release)
      modifies this, history
      ensures kind.Batch? ==> observed == old(observed)[r.version := ObserveRelease(r)] && history.items == old(history.items)
      ensures kind.Each? ==>
                observed == old(observed) && history.items == ObserveOne(canonical, kind.observer, old(history.items), r)
    {
      match kind
      case Batch => observed := observed[r.version := ObserveRelease(r)];
      case Each(RollbackObserver) => history.ObserveRollback(canonical, r);
      case Each(UninstallObserver(action)) => history.ObserveUninstall(canonical, r, action);
      case Each(UnlockObserver) => history.ObserveUnlock(canonical, r);
      case Each(TestObserver(filters)) => history.ObserveTest(canonical, r, filters);
    }

    /** A write that the driver fails leaves no trace; one that succeeds is observed. */
    method Perform(t: Try) returns (err: bool)
      modifies this, driver, history
      ensures err == t.fails
      ensures driver.releases == if t.fails then old(driver.releases) else ApplyOne(old(driver.releases), t.write)
      ensures t.fails ==> observed == old(observed) && history.items == old(history.items)
      ensures !t.fails && kind.Batch? ==>
                observed == old(observed)[t.write.rls.version := ObserveRelease(t.write.rls)] && history.items == old(history.items)
      ensures !t.fails && kind.Each? ==>
                observed == old(observed) && history.items == ObserveOne(canonical, kind.observer, old(history.items), t.write.rls)
    {
      if t.fails {
        return true;
      }
      driver.releases := ApplyOne(driver.releases, t.write);
      Notify(t.write.rls);
      return false;
    }

    /** What Helm tries, one after the other. */
    method PerformAll(tries: seq<Try>)
      requires observed == map[]
      modifies this, driver, history
      ensures driver.releases == Apply(old(driver.releases), Persisted(tries))
      ensures kind.Batch? ==> observed == Observe(Persisted(tries)) && history.items == old(history.items)
      ensures kind.Each? ==>
                history.items == ObserveAll(canonical, kind.observer, old(history.items), Persisted(tries))
    {
      for i := 0 to |tries|
        invariant driver.releases == Apply(old(driver.releases), Persisted(tries[..i]))
        invariant kind.Batch? ==> observed == Observe(Persisted(tries[..i])) && history.items == old(history.items)
        invariant kind.Each? ==>
                    history.items == ObserveAll(canonical, kind.observer, old(history.items), Persisted(tries[..i]))
      {
        PersistedStep(tries, i);
        var _ := Perform(tries[i]);
      }
      assert tries[..|tries|] == tries;
    }
  }
}
