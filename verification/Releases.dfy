/** Observing releases (internal/release/observation.go), the Helm storage, and
    verifying snapshots against it (internal/action/verify.go). */
module Releases {
  import opened Api

  // ---------- Observation ----------

  /** The hooks that are not test hooks, in order. */
  function WithoutTests(hooks: seq<Hook>): seq<Hook> {
    if hooks == [] then []
    else WithoutTests(hooks[..|hooks| - 1]) + (if hooks[|hooks| - 1].test then [] else [hooks[|hooks| - 1]])
  }

  function ObserveRelease(r: Release): Observation {
    Observation(r.name, r.ns, r.version, r.status, r.chartName, r.chartVersion, r.config,
                r.description, r.info, WithoutTests(r.hooks), "", ActionNone)
  }

  /** A hook is selected if no exclusion names it and, when there are
      inclusions, one of them does. */
  predicate Selected(name: string, filters: seq<Filter>) {
    && (forall f | f in filters :: f.exclude ==> f.name != name)
    && ((forall f | f in filters :: f.exclude) || Filter(name, false) in filters)
  }

  function SelectedTests(hooks: seq<Hook>, filters: seq<Filter>): TestHooks {
    if hooks == [] then map[]
    else
      var h := hooks[|hooks| - 1];
      var m := SelectedTests(hooks[..|hooks| - 1], filters);
      if h.test && Selected(h.name, filters) then m[h.name := h.phase] else m
  }

  /** What a digest is taken over: the action is not serialised. */
  function Encoded(o: Observation): Observation {
    o.(action := ActionNone)
  }

  function ToSnapshot(canonical: string, o: Observation): Snapshot {
    Snapshot(CURRENT_API_VERSION, Digest(canonical, Encoded(o)), o.name, o.ns, o.version, o.status, o.action,
             o.chartName, o.chartVersion, Digest(canonical, o.config), None, o.oci)
  }

  /** What is observed of hooks is those that are not tests, each as often as it is
      there. */
  lemma {:induction false} WithoutTestsExactly(hooks: seq<Hook>, h: Hook)
    ensures multiset(WithoutTests(hooks))[h] == if h.test then 0 else multiset(hooks)[h]
  {
    if hooks != [] {
      var init, last := hooks[..|hooks| - 1], hooks[|hooks| - 1];
      assert hooks == init + [last];
      WithoutTestsExactly(init, h);
    }
  }

  /** Two releases look the same exactly if they differ in test hooks only. */
  lemma ObservationExactly(r: Release, r': Release)
    ensures ObserveRelease(r) == ObserveRelease(r') <==>
              && r.name == r'.name && r.ns == r'.ns && r.version == r'.version && r.status == r'.status
              && r.chartName == r'.chartName && r.chartVersion == r'.chartVersion && r.config == r'.config
              && r.description == r'.description && r.info == r'.info && WithoutTests(r.hooks) == WithoutTests(r'.hooks)
  {
  }

  lemma SelectedExactly(name: string, filters: seq<Filter>)
    ensures Selected(name, filters) <==>
              && !(exists f | f in filters :: f.exclude && f.name == name)
              && ((exists f | f in filters :: !f.exclude) ==> exists f | f in filters :: !f.exclude && f.name == name)
  {
  }

  /** A test has a result exactly if a hook of that name is a test that is selected,
      and the result is that of the last such hook. */
  lemma {:induction false} SelectedTestsExactly(hooks: seq<Hook>, filters: seq<Filter>, name: string)
    ensures var m := SelectedTests(hooks, filters);
            && (name in m <==> Selected(name, filters) && exists h | h in hooks :: h.test && h.name == name)
            && (name in m ==> exists i | 0 <= i < |hooks| && hooks[i].test && hooks[i].name == name ::
                  m[name] == hooks[i].phase && forall j | i < j < |hooks| :: !(hooks[j].test && hooks[j].name == name))
  {
    if hooks != [] {
      var init, last := hooks[..|hooks| - 1], hooks[|hooks| - 1];
      assert hooks == init + [last];
      SelectedTestsExactly(init, filters, name);
      if last.test && last.name == name {
        assert hooks[|hooks| - 1] == last;
      } else if name in SelectedTests(init, filters) {
        var i :| 0 <= i < |init| && init[i].test && init[i].name == name
                 && SelectedTests(init, filters)[name] == init[i].phase
                 && forall j | i < j < |init| :: !(init[j].test && init[j].name == name);
        assert hooks[i] == init[i];
      }
    }
  }

  // ---------- Storage ----------

  datatype Key = Key(name: string, version: int)

  type Storage = map<Key, Release>

  /** A successful change of the storage. A deletion carries the release the
      driver returned. */
  datatype Write = Put(rls: Release) | Del(rls: Release)

  function KeyOf(r: Release): Key {
    Key(r.name, r.version)
  }

  function ApplyOne(sto: Storage, w: Write): Storage {
    match w
    case Put(r) => sto[KeyOf(r) := r]
    case Del(r) => sto - {KeyOf(r)}
  }

  function Apply(sto: Storage, ws: seq<Write>): Storage {
    if ws == [] then sto else ApplyOne(Apply(sto, ws[..|ws| - 1]), ws[|ws| - 1])
  }

  ghost predicate WellKeyed(sto: Storage) {
    forall k | k in sto :: KeyOf(sto[k]) == k
  }

  lemma NothingIn(s: set<int>)
    requires forall x :: x !in s
    ensures s == {}
  {
    assert forall x :: x in s <==> x in {};
  }

  lemma {:induction false} MaxExists(s: set<int>)
    requires s != {}
    ensures exists m :: m in s && forall x | x in s :: x <= m
  {
    if forall x :: x !in s {
      NothingIn(s);
    }
    var x :| x in s;
    var rest := s - {x};
    if rest == {} {
      assert s == {x};
    } else {
      MaxExists(rest);
      var m :| m in rest && forall y | y in rest :: y <= m;
      var top := if m < x then x else m;
      assert s == rest + {x};
      assert top in s && forall y | y in s :: y <= top;
    }
  }

  function Max(s: set<int>): (m: int)
    requires s != {}
    ensures m in s && forall x | x in s :: x <= m
  {
    MaxExists(s);
    var m :| m in s && forall x | x in s :: x <= m;
    m
  }

  function StoredVersions(sto: Storage, name: string): set<int> {
    set k | k in sto && k.name == name :: k.version
  }

  /** The release with the greatest version stored under a name. */
  function Last(sto: Storage, name: string): Option<Release> {
    var vs := StoredVersions(sto, name);
    if vs == {} then None else Some(sto[Key(name, Max(vs))])
  }

  function Get(sto: Storage, name: string, version: int): Option<Release> {
    if Key(name, version) in sto then Some(sto[Key(name, version)]) else None
  }

  /** `Last` answers the stored release that no other stored version exceeds. */
  lemma LastIs(sto: Storage, name: string, version: int)
    requires Key(name, version) in sto
    requires forall k | k in sto && k.name == name :: k.version <= version
    ensures Last(sto, name) == Some(sto[Key(name, version)])
  {
    assert version in StoredVersions(sto, name);
    var m := Max(StoredVersions(sto, name));
    assert Key(name, m) in sto;
  }

  lemma LastGreatest(sto: Storage, name: string)
    requires WellKeyed(sto) && Last(sto, name).Some?
    ensures var r := Last(sto, name).value;
            && r.name == name && Get(sto, name, r.version) == Some(r)
            && forall k | k in sto && k.name == name :: k.version <= r.version
  {
    var m := Max(StoredVersions(sto, name));
    assert Key(name, m) in sto;
    forall k | k in sto && k.name == name ensures k.version <= m {
      assert k.version in StoredVersions(sto, name);
    }
  }

  lemma {:induction false} ApplyWellKeyed(sto: Storage, ws: seq<Write>)
    requires WellKeyed(sto)
    ensures WellKeyed(Apply(sto, ws))
  {
    if ws != [] {
      ApplyWellKeyed(sto, ws[..|ws| - 1]);
    }
  }

  /** Every key that writes add is the key of one of them. */
  lemma {:induction false} AppliedKeys(sto: Storage, ws: seq<Write>, k: Key)
    requires k in Apply(sto, ws)
    ensures k in sto || exists w :: w in ws && KeyOf(w.rls) == k
  {
    if ws != [] {
      var init, last := ws[..|ws| - 1], ws[|ws| - 1];
      assert ws == init + [last];
      assert last in ws;
      if k in Apply(sto, init) {
        AppliedKeys(sto, init, k);
      }
    }
  }

  // ---------- Verification ----------

  datatype Verification = Verified | NotFound | Disappeared | BadDigest | NotObserved | Unavailable

  function VerifyReleaseObject(s: Snapshot, r: Release): Verification {
    if s.Legacy() then Verified
    else if s.digest.Unparsable? then BadDigest
    else if s.digest.content == Encoded(ObserveRelease(r).(oci := s.oci)) then Verified
    else NotObserved
  }

  /** `down` is set when the storage cannot be read at this moment. */
  function VerifySnapshot(sto: Storage, s: Option<Snapshot>, down: bool): Verification {
    if s.None? then NotFound
    else if down then Unavailable
    else
      var r := Get(sto, s.value.name, s.value.version);
      if r.None? then Disappeared else VerifyReleaseObject(s.value, r.value)
  }

  predicate VerifyValues(d: Digest<Values>, values: Values) {
    d.Digest? && d.content == values
  }

  predicate VerifyRelease(r: Release, s: Snapshot, chartName: string, chartVersion: string, values: Values) {
    r.chartName == chartName && r.chartVersion == chartVersion && VerifyValues(s.configDigest, values)
  }

  /** A snapshot is sound if its digest is about the release it names. */
  ghost predicate Sound(s: Snapshot) {
    !s.Legacy() && s.digest.Digest? ==>
      s.digest.content.name == s.name && s.digest.content.ns == s.ns && s.digest.content.version == s.version
  }

  /** A snapshot taken of a release verifies against exactly the releases that
      are the same up to their test hooks, whatever digest algorithm, artifact
      digest and action it was taken with. */
  lemma SnapshotVerifiesExactly(canonical: string, r: Release, oci: string, a: ReleaseAction, r': Release)
    ensures var s := ToSnapshot(canonical, ObserveRelease(r).(oci := oci, action := a));
            && Sound(s)
            && (VerifyReleaseObject(s, r') == Verified <==> ObserveRelease(r') == ObserveRelease(r))
            && (VerifyReleaseObject(s, r') == NotObserved <==> ObserveRelease(r') != ObserveRelease(r))
  {
  }

  /** Running tests by hand, which rewrites test hooks, does not disturb
      verification. */
  lemma {:induction false} TestsDoNotDisturb(before: seq<Hook>, after: seq<Hook>)
    requires |before| == |after|
    requires forall i | 0 <= i < |before| ::
               if before[i].test then after[i].test else after[i] == before[i]
    ensures WithoutTests(before) == WithoutTests(after)
  {
    if before != [] {
      TestsDoNotDisturb(before[..|before| - 1], after[..|after| - 1]);
    }
  }
}
