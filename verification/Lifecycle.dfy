/** An install starts a new lifecycle: nothing recorded before it can be rolled
    back to. */
module Lifecycle {
  import opened Api
  import opened Snapshots
  import opened Releases
  import opened Recording
  import opened Requests
  import opened State
  import opened Actions
  import opened AtomicRelease
  import opened Runs
  import opened Coherence
  import opened Tidiness
  import opened Recovery

  // ---------- A freshly installed object has one snapshot ----------

  ghost predicate FreshInstall(st: Status) {
    st.lastAction == ActionInstall ==> |st.history| <= 1
  }

  lemma RecordLength(canonical: string, ws: seq<Write>, oci: string, action: ReleaseAction)
    ensures |Record(canonical, Observe(ws), [], oci, action)| <= 1
  {
  }

  lemma InstallFresh(req: Request, w: World, helm: HelmRun)
    ensures |RunInstall(req, w, helm).world.status.history| <= 1
  {
    var oci, ws := w.status.lastAttemptedRevisionDigest, helm.writes;
    RecordLength(req.canonical, ws, oci, ActionInstall);
    SortedMembers(Record(req.canonical, Observe(ws), [], oci, ActionInstall));
  }

  lemma TestLength(req: Request, w: World, helm: HelmRun)
    ensures |RunTest(req, w, helm).world.status.history| == |w.status.history|
  {
    var h, o := w.status.history, TestObserver(req.spec.testFilters);
    SortedLength(h);
    ObserveAllLength(req.canonical, o, Sorted(h), helm.writes);
    SortedLength(ObserveAll(req.canonical, o, Sorted(h), helm.writes));
  }

  lemma UninstallRemediationLength(req: Request, w: World, helm: HelmRun)
    ensures |RunUninstallRemediation(req, w, helm).world.status.history| == |w.status.history|
  {
    var h, o := w.status.history, UninstallObserver(ActionUninstallRemediation);
    SortedLength(h);
    ObserveAllLength(req.canonical, o, Sorted(h), helm.writes);
    SortedLength(ObserveAll(req.canonical, o, Sorted(h), helm.writes));
  }

  lemma ExecuteFresh(req: Request, a: Action, w: World, down: bool, helm: HelmRun)
    requires FreshInstall(w.status) && (a.Rollback? ==> w.status.lastAction == ActionUpgrade)
    ensures FreshInstall(Execute(req, a, w, down, helm).world.status)
  {
    match a
    case Install => InstallFresh(req, w, helm);
    case Upgrade =>
    case Test => TestLength(req, w, helm);
    case Rollback =>
    case UninstallRemediation => UninstallRemediationLength(req, w, helm);
    case Unlock =>
    case CorrectDrift =>
  }

  lemma EventFresh(req: Request, w: World, e: Event)
    requires Recorded(req, w, e) && FreshInstall(w.status)
    ensures FreshInstall(e.decided.status) && FreshInstall(e.after.status)
  {
    var st := SortedByLookup(req, e.seen.status, e.seen.storage, e.turn.lastDown);
    SortedMembers(w.status.history);
    SortedMembers(st.history);
    DecisionFrame(req, st, e.seen.storage, e.state, e.turn.getDown);
    DecisionPrefix(req, st, e.seen.storage, e.state, e.turn.getDown);
    if e.ran.Some? {
      if e.ran.value.Rollback? {
        RollbackDecided(req, st, e.seen.storage, e.state, e.turn.getDown);
      }
      ExecuteFresh(req, e.ran.value, e.decided, e.turn.actionDown, e.turn.helm);
    }
  }

  /** In every run from an empty status, through any requests, any behaviour of
      the environment and any crashes, an object whose last attempted action is
      an install has at most one snapshot. */
  lemma InstallStartsOver(sto: Storage, attempts: seq<Attempt>)
    ensures FreshInstall(After(World(EMPTY_STATUS, sto), attempts).status)
  {
    forall a | a in attempts ensures AttemptKeeps(a.req, FreshInstall) {
      forall w, e | Recorded(a.req, w, e) && FreshInstall(w.status)
        ensures FreshInstall(e.decided.status) && FreshInstall(e.after.status)
      {
        EventFresh(a.req, w, e);
      }
      forall st | FreshInstall(st) ensures FreshInstall(st.(history := Sorted(st.history))) {
        SortedMembers(st.history);
      }
    }
    KeptByAttempts(FreshInstall, World(EMPTY_STATUS, sto), attempts);
  }

  // ---------- Where snapshots come from ----------

  /** The event installs, or drops a history it cannot rely on. */
  ghost predicate StartsOver(e: Event) {
    e.state.Unmanaged? || e.ran == Some(Install)
  }

  ghost function VersionsOf(ws: seq<Write>): set<int> {
    set w | w in ws :: w.rls.version
  }

  /** The greatest version that was written, if anything was. */
  ghost function Greatest(ws: seq<Write>): set<int> {
    if Observe(ws).Keys == {} then {} else {Max(Observe(ws).Keys)}
  }

  /** The versions that an action can add to the history: an install or upgrade the
      one it puts on top, a rollback all that it writes. Versions that are only
      rewritten, such as that of a release being replaced, are not among those
      of an install or upgrade. */
  ghost function AddedBy(a: Action, ws: seq<Write>): set<int> {
    match a
    case Install => Greatest(ws)
    case Upgrade => Greatest(ws)
    case Rollback => VersionsOf(ws)
    case _ => {}
  }

  ghost function Added(e: Event): set<int> {
    if e.ran.None? then {} else AddedBy(e.ran.value, e.turn.helm.writes)
  }

  /** The versions recorded since the object last started over, where `base` is
      what was recorded before the event. */
  ghost function SinceEvent(base: set<int>, e: Event): set<int> {
    (if StartsOver(e) then {} else base) + Added(e)
  }

  ghost function Since(base: set<int>, events: seq<Event>): set<int>
    decreases |events|
  {
    if events == [] then base else Since(SinceEvent(base, events[0]), events[1..])
  }

  lemma SortedVersions(h: seq<Snapshot>)
    ensures Versions(Sorted(h)) == Versions(h)
  {
    SortedMembers(h);
  }

  lemma ObserveOneVersions(canonical: string, o: Observer, h: seq<Snapshot>, r: Release)
    ensures Versions(ObserveOne(canonical, o, h, r)) <= Versions(h) + {r.version}
  {
    SortedMembers(h);
    var h' := ObserveOne(canonical, o, h, r);
    forall s | s in h' ensures s.version in Versions(h) + {r.version} {
      if s !in h {
        assert s.version == r.version;
      }
    }
  }

  lemma {:induction false} ObserveAllVersions(canonical: string, o: Observer, h: seq<Snapshot>, ws: seq<Write>)
    ensures Versions(ObserveAll(canonical, o, h, ws)) <= Versions(h) + VersionsOf(ws)
  {
    if ws != [] {
      var init := ws[..|ws| - 1];
      ObserveAllVersions(canonical, o, h, init);
      ObserveOneVersions(canonical, o, ObserveAll(canonical, o, h, init), ws[|ws| - 1].rls);
      assert ws == init + [ws[|ws| - 1]];
    }
  }

  /** An observer other than that of a rollback adds no versions. */
  lemma {:induction false} ObserveAllSameVersions(canonical: string, o: Observer, h: seq<Snapshot>, ws: seq<Write>)
    requires !o.RollbackObserver?
    ensures Versions(ObserveAll(canonical, o, h, ws)) <= Versions(h)
  {
    if ws != [] {
      var init := ws[..|ws| - 1];
      ObserveAllSameVersions(canonical, o, h, init);
      ObserveOneSameVersions(canonical, o, ObserveAll(canonical, o, h, init), ws[|ws| - 1].rls);
    }
  }

  lemma ObserveOneSameVersions(canonical: string, o: Observer, h: seq<Snapshot>, r: Release)
    requires !o.RollbackObserver?
    ensures Versions(ObserveOne(canonical, o, h, r)) <= Versions(h)
  {
    SortedMembers(h);
    var h' := ObserveOne(canonical, o, h, r);
    forall s | s in h' ensures s.version in Versions(h) {
      if s !in h {
        assert s.version == r.version;
      }
    }
  }

  lemma RecordVersions(canonical: string, ws: seq<Write>, h: seq<Snapshot>, oci: string, action: ReleaseAction)
    ensures Versions(Record(canonical, Observe(ws), h, oci, action)) <= Versions(h) + Greatest(ws)
  {
    ObserveKeys(ws);
    if ws != [] {
      var obs := Observe(ws);
      var h1, r := [Head(canonical, obs, oci, action)] + h, Record(canonical, obs, h, oci, action);
      RecordSubjects(canonical, obs, h, oci, action);
      forall s | s in r ensures s.version in Versions(h) + Greatest(ws) {
        var k :| 0 <= k < |r| && r[k] == s;
        assert SameSubject(h1[k], r[k]);
        if k > 0 {
          assert h1[k] in h;
        }
      }
    }
  }

  lemma ReleaseVersions(req: Request, a: Action, w: World, down: bool, helm: HelmRun)
    requires a.Install? || a.Upgrade?
    ensures Versions(Execute(req, a, w, down, helm).world.status.history)
              <= (if a.Install? then {} else Versions(w.status.history)) + Greatest(helm.writes)
  {
    var h, action := if a.Install? then [] else w.status.history, if a.Install? then ActionInstall else ActionUpgrade;
    var oci, ws := w.status.lastAttemptedRevisionDigest, helm.writes;
    RecordVersions(req.canonical, ws, h, oci, action);
    SortedVersions(Record(req.canonical, Observe(ws), h, oci, action));
  }

  lemma FollowedVersions(req: Request, o: Observer, h: seq<Snapshot>, ws: seq<Write>)
    ensures var h' := ObserveAll(req.canonical, o, Sorted(h), ws);
            && Versions(Sorted(h)) == Versions(h) && Versions(Sorted(h')) == Versions(h')
            && Versions(h') <= Versions(h) + (if o.RollbackObserver? then VersionsOf(ws) else {})
  {
    SortedVersions(h);
    SortedVersions(ObserveAll(req.canonical, o, Sorted(h), ws));
    if o.RollbackObserver? {
      ObserveAllVersions(req.canonical, o, Sorted(h), ws);
    } else {
      ObserveAllSameVersions(req.canonical, o, Sorted(h), ws);
    }
  }

  /** The versions in the history after an action were there before, or were added
      by it; after an install, they were added by it. */
  lemma ExecuteVersions(req: Request, a: Action, w: World, down: bool, helm: HelmRun)
    ensures Versions(Execute(req, a, w, down, helm).world.status.history)
              <= (if a.Install? then {} else Versions(w.status.history)) + AddedBy(a, helm.writes)
  {
    var h, ws := w.status.history, helm.writes;
    match a
    case Install => ReleaseVersions(req, a, w, down, helm);
    case Upgrade => ReleaseVersions(req, a, w, down, helm);
    case Test => FollowedVersions(req, TestObserver(req.spec.testFilters), h, ws);
    case Rollback => FollowedVersions(req, RollbackObserver, h, ws);
    case UninstallRemediation => FollowedVersions(req, UninstallObserver(ActionUninstallRemediation), h, ws);
    case Unlock =>
      if Last(w.storage, req.spec.name).Some? {
        UnlockVersions(req.canonical, h, Unlocked(Last(w.storage, req.spec.name).value));
      }
    case CorrectDrift =>
  }

  lemma UnlockVersions(canonical: string, h: seq<Snapshot>, r: Release)
    ensures Versions(ObserveUnlock(canonical, h, r)) <= Versions(h)
  {
  }

  lemma CutVersions(h: seq<Snapshot>, h': seq<Snapshot>)
    requires CutFrom(h, h')
    ensures Versions(h') <= Versions(h)
  {
    SortedMembers(h);
  }

  lemma EventVersions(req: Request, w: World, e: Event)
    requires Recorded(req, w, e)
    ensures Versions(e.decided.status.history) <= (if e.state.Unmanaged? then {} else Versions(w.status.history))
    ensures Versions(e.after.status.history) <= (if StartsOver(e) then {} else Versions(w.status.history)) + Added(e)
  {
    var st := SortedByLookup(req, e.seen.status, e.seen.storage, e.turn.lastDown);
    SortedVersions(w.status.history);
    DecisionPrefix(req, st, e.seen.storage, e.state, e.turn.getDown);
    if !e.state.Unmanaged? {
      CutVersions(st.history, e.decided.status.history);
    }
    if e.ran.Some? {
      ExecuteVersions(req, e.ran.value, e.decided, e.turn.actionDown, e.turn.helm);
    }
  }

  /** An event rolls back to a version in `allowed`, if it rolls back at all. */
  ghost predicate RollsBackWithin(req: Request, e: Event, allowed: set<int>) {
    e.ran == Some(Rollback) && RollbackTarget(req, e.decided.status).Some? ==>
      RollbackTarget(req, e.decided.status).value.version in allowed
  }

  lemma EventRollsBack(req: Request, w: World, e: Event)
    requires Recorded(req, w, e)
    ensures RollsBackWithin(req, e, Versions(w.status.history))
  {
    if e.ran == Some(Rollback) && RollbackTarget(req, e.decided.status).Some? {
      EventVersions(req, w, e);
      PreviousMember(e.decided.status.history, req.spec.upgradeRemediation.MustIgnoreTestFailures(req.spec.testIgnoreFailures));
    }
  }

  /** The world that the first events of a run lead to, and its history. */
  lemma {:induction false} EventsSince(req: Request, w: World, base: set<int>, events: seq<Event>, n: nat)
    requires Linked(req, w, events) && n <= |events| && Versions(w.status.history) <= base
    ensures Versions(ReachedWorld(w, events[..n]).status.history) <= Since(base, events[..n])
    decreases n
  {
    if n > 0 {
      var e, rest := events[0], events[1..];
      EventSince(req, w, e, base);
      EventsSince(req, e.after, SinceEvent(base, e), rest, n - 1);
      PrefixCons(events, n);
      ReachedCons(w, e, rest[..n - 1]);
      SinceCons(base, e, rest[..n - 1]);
    }
  }

  lemma EventSince(req: Request, w: World, e: Event, base: set<int>)
    requires Recorded(req, w, e) && Versions(w.status.history) <= base
    ensures Versions(e.after.status.history) <= SinceEvent(base, e)
  {
    EventVersions(req, w, e);
  }

  lemma SinceCons(base: set<int>, e: Event, rest: seq<Event>)
    ensures Since(base, [e] + rest) == Since(SinceEvent(base, e), rest)
  {
    assert ([e] + rest)[1..] == rest;
  }

  /** The versions recorded since the object last started over, after an attempt
      that may crash: an action that it crashes in does not count, but the
      decision before it does. */
  ghost function SinceAttempt(base: set<int>, w: World, a: Attempt): set<int> {
    var events := Attempted(w, a).events;
    if CutsIn(w, a) && events[a.crash.value.at].state.Unmanaged? then {}
    else Since(base, Lived(w, a))
  }

  ghost function SinceAttempts(w: World, attempts: seq<Attempt>): set<int> {
    if attempts == [] then Versions(w.status.history)
    else
      var init, a := attempts[..|attempts| - 1], attempts[|attempts| - 1];
      SinceAttempt(SinceAttempts(w, init), After(w, init), a)
  }

  lemma AllEventsSince(req: Request, w: World, base: set<int>, events: seq<Event>)
    requires Linked(req, w, events) && Versions(w.status.history) <= base
    ensures Versions(Reached(w, events).history) <= Since(base, events)
  {
    EventsSince(req, w, base, events, |events|);
    assert events[..|events|] == events;
  }

  lemma CompletedSince(w: World, base: set<int>, a: Attempt)
    requires Versions(w.status.history) <= base
    ensures Versions(Attempted(w, a).world.status.history) <= Since(base, Attempted(w, a).events)
  {
    var w', events := World(Prepare(a.req, w.status), w.storage), Attempted(w, a).events;
    RunLinked(a.req, w', [], a.env, 0);
    RunEnds(a.req, w', [], a.env, 0);
    AllEventsSince(a.req, w', base, events);
    SortedVersions(Reached(w', events).history);
  }

  lemma EventsOfAttemptSince(w: World, base: set<int>, a: Attempt, i: nat)
    requires Versions(w.status.history) <= base && i < |Attempted(w, a).events|
    ensures var events := Attempted(w, a).events;
            && Versions(events[i].decided.status.history) <= (if events[i].state.Unmanaged? then {} else Since(base, events[..i]))
            && Versions(events[i].after.status.history) <= Since(base, events[..i + 1])
            && RollsBackWithin(a.req, events[i], Since(base, events[..i]))
  {
    var w', events := World(Prepare(a.req, w.status), w.storage), Attempted(w, a).events;
    RunLinked(a.req, w', [], a.env, 0);
    EventsSince(a.req, w', base, events, i);
    EventsSince(a.req, w', base, events, i + 1);
    LinkedAfter(a.req, w', events, i);
    EventVersions(a.req, ReachedWorld(w', events[..i]), events[i]);
    EventRollsBack(a.req, ReachedWorld(w', events[..i]), events[i]);
  }

  lemma AttemptSince(w: World, base: set<int>, a: Attempt)
    requires Versions(w.status.history) <= base
    ensures Versions(Survives(w, a).status.history) <= SinceAttempt(base, w, a)
  {
    if Crashes(w, a) {
      EventsOfAttemptSince(w, base, a, a.crash.value.at);
    } else {
      CompletedSince(w, base, a);
    }
  }

  /** Every snapshot in history was recorded at or after the most recent install
      that was completed, or history clear, so the next attempt can only roll
      back to a version recorded since then. This holds for every behaviour of
      Helm and other writers, and wherever the controller crashes. */
  lemma {:induction false} NoRollbackCrossesInstall(w: World, attempts: seq<Attempt>, next: Attempt)
    ensures Versions(After(w, attempts).status.history) <= SinceAttempts(w, attempts)
    ensures var events := Attempted(After(w, attempts), next).events;
            forall i | 0 <= i < |events| ::
              RollsBackWithin(next.req, events[i], Since(SinceAttempts(w, attempts), events[..i]))
  {
    if attempts != [] {
      var init, a := attempts[..|attempts| - 1], attempts[|attempts| - 1];
      NoRollbackCrossesInstall(w, init, a);
      AttemptSince(After(w, init), SinceAttempts(w, init), a);
    }
    var events := Attempted(After(w, attempts), next).events;
    forall i | 0 <= i < |events|
      ensures RollsBackWithin(next.req, events[i], Since(SinceAttempts(w, attempts), events[..i]))
    {
      EventsOfAttemptSince(After(w, attempts), SinceAttempts(w, attempts), next, i);
    }
  }

  /** A version that is in storage is not added to the history by an action that
      finds it there, unless by a rollback that writes it again. */
  lemma StoredNotAdded(req: Request, e: Event, version: int)
    requires e.ran != Some(Rollback) && Orderly(req, e) && e.seen.storage == e.decided.storage
    requires Key(req.spec.name, version) in e.decided.storage
    ensures version !in Added(e)
  {
    if (e.ran == Some(Install) || e.ran == Some(Upgrade)) && e.turn.helm.writes != [] {
      NewTopObserved(e.decided.storage, e.turn.helm.writes, req.spec.name, req.spec.ns);
      ApplyWellKeyed(e.decided.storage, e.turn.helm.writes);
      LastGreatest(Apply(e.decided.storage, e.turn.helm.writes), req.spec.name);
    }
  }

  /** What was in storage before an object started over, be it the release that an
      install replaces or one that an upgrade adopts, is not among what is
      recorded from then on. */
  lemma EarlierLifeExcluded(req: Request, e: Event, base: set<int>, version: int)
    requires StartsOver(e) && e.ran != Some(Rollback) && Orderly(req, e) && e.seen.storage == e.decided.storage
    requires Key(req.spec.name, version) in e.decided.storage
    ensures version !in SinceEvent(base, e)
  {
    StoredNotAdded(req, e, version);
  }

  // ---------- Installs that a crash cuts short ----------

  /** The versions that an action writes, and that were not stored before it. */
  ghost function NewlyStored(name: string, a: Action, sto: Storage, ws: seq<Write>): set<int> {
    if a.Unlock? || a.CorrectDrift? then {} else VersionsOf(ws) - StoredVersions(sto, name)
  }

  /** What of the storage after an event is recorded or stored by it. */
  ghost function Gained(name: string, e: Event): set<int> {
    if e.ran.None? then {}
    else (Added(e) + NewlyStored(name, e.ran.value, e.decided.storage, e.turn.helm.writes)) * StoredVersions(e.after.storage, name)
  }

  /** The versions in storage that were recorded or stored since the object last
      started over. */
  ghost function SinceStoredEvent(name: string, base: set<int>, e: Event): set<int> {
    (if StartsOver(e) then {} else base) + Gained(name, e)
  }

  ghost function SinceStored(name: string, base: set<int>, events: seq<Event>): set<int>
    decreases |events|
  {
    if events == [] then base else SinceStored(name, SinceStoredEvent(name, base, events[0]), events[1..])
  }

  lemma SinceStoredCons(name: string, base: set<int>, e: Event, rest: seq<Event>)
    ensures SinceStored(name, base, [e] + rest) == SinceStored(name, SinceStoredEvent(name, base, e), rest)
  {
    assert ([e] + rest)[1..] == rest;
  }

  lemma EarlierLifeNotGained(req: Request, e: Event, base: set<int>, version: int)
    requires StartsOver(e) && e.ran != Some(Rollback) && Orderly(req, e) && e.seen.storage == e.decided.storage
    requires Key(req.spec.name, version) in e.decided.storage
    ensures version !in SinceStoredEvent(req.spec.name, base, e)
  {
    StoredNotAdded(req, e, version);
    assert version in StoredVersions(e.decided.storage, req.spec.name);
  }

  /** What keeps a run from rolling back to a release of an earlier life: every
      recorded version that is still stored was gained in this one, or the
      latest snapshot is not of the last release in storage, or not of what
      became of it, which makes the controller drop the history. */
  ghost predicate Sealed(name: string, ns: string, w: World, since: set<int>) {
    && Tidy(name, ns, w.status.history) && WellKeyed(w.storage)
    && (Within(name, w, since) || Stale(name, w) || Rewritten(name, w))
  }

  ghost predicate Within(name: string, w: World, since: set<int>) {
    forall s | s in w.status.history && Key(name, s.version) in w.storage :: s.version in since
  }

  ghost predicate Stale(name: string, w: World) {
    && w.status.history != [] && Last(w.storage, name).Some?
    && Latest(w.status.history).value.version != Last(w.storage, name).value.version
  }

  ghost predicate Rewritten(name: string, w: World) {
    && w.status.history != [] && Last(w.storage, name).Some? && !IsLocked(Last(w.storage, name).value.status)
    && VerifyReleaseObject(Latest(w.status.history).value, Last(w.storage, name).value) != Verified
  }

  /** The history of a release that was rewritten is dropped. */
  lemma RewrittenDropped(req: Request, w: World, e: Event)
    requires Recorded(req, w, e) && e.turn.foreign.None? && Rewritten(req.spec.name, w)
    ensures e.state.Unmanaged? && e.decided.status.history == []
  {
  }

  /** A stale history is unlocked or dropped, and nothing else. */
  lemma StaleStates(req: Request, w: World, e: Event)
    requires Recorded(req, w, e) && e.turn.foreign.None? && Genuine(w.status.history) && Stale(req.spec.name, w)
    ensures e.state.Locked? || e.state.Unmanaged?
    ensures e.state.Locked? && e.ran.Some? ==> e.ran == Some(Unlock)
  {
    LatestMember(w.status.history);
  }

  lemma DecidedSealed(req: Request, w: World, e: Event, since: set<int>)
    requires Recorded(req, w, e) && e.turn.foreign.None? && Sealed(req.spec.name, req.spec.ns, w, since)
    ensures Sealed(req.spec.name, req.spec.ns, e.decided, if e.state.Unmanaged? then {} else since)
    ensures Within(req.spec.name, e.decided, if e.state.Unmanaged? then {} else since)
            || (Stale(req.spec.name, e.decided) && (e.ran.None? || e.ran == Some(Unlock)))
  {
    EventTidy(req, w, e);
    DecidedHistory(req, w, e);
    if Rewritten(req.spec.name, w) {
      RewrittenDropped(req, w, e);
    } else if Stale(req.spec.name, w) {
      StaleStates(req, w, e);
      LatestIsTop(w.status.history);
    }
  }

  /** A rollback goes to a version that is stored. */
  lemma SealedRollsBack(req: Request, w: World, e: Event, since: set<int>)
    requires Recorded(req, w, e) && e.turn.foreign.None? && Sealed(req.spec.name, req.spec.ns, w, since)
    ensures RollsBackWithin(req, e, since)
  {
    if e.ran == Some(Rollback) && RollbackTarget(req, e.decided.status).Some? {
      DecidedSealed(req, w, e, since);
      var st := SortedByLookup(req, e.seen.status, e.seen.storage, e.turn.lastDown);
      RollbackDecided(req, st, e.seen.storage, e.state, e.turn.getDown);
      PreviousMember(e.decided.status.history, req.spec.upgradeRemediation.MustIgnoreTestFailures(req.spec.testIgnoreFailures));
    }
  }

  /** What an action stores was stored before, or is newly stored. */
  lemma ExecuteStored(req: Request, a: Action, w: World, down: bool, helm: HelmRun, name: string, version: int)
    requires WellKeyed(w.storage) && Key(name, version) in Execute(req, a, w, down, helm).world.storage
    ensures Key(name, version) in w.storage || version in NewlyStored(name, a, w.storage, helm.writes)
  {
    if a.Unlock? {
      if Last(w.storage, req.spec.name).Some? {
        LastGreatest(w.storage, req.spec.name);
      }
    } else if Key(name, version) in Apply(w.storage, helm.writes) {
      CutStored(w.storage, helm.writes, name, version);
    }
  }

  lemma ExecuteWellKeyed(req: Request, a: Action, w: World, down: bool, helm: HelmRun)
    requires WellKeyed(w.storage)
    ensures WellKeyed(Execute(req, a, w, down, helm).world.storage)
  {
    ApplyWellKeyed(w.storage, helm.writes);
  }

  /** An unlock changes neither the latest version recorded nor the last stored. */
  lemma UnlockStale(req: Request, w: World, down: bool, helm: HelmRun)
    requires WellKeyed(w.storage) && Stale(req.spec.name, w)
    ensures Stale(req.spec.name, RunUnlock(req, w, down, helm).world)
  {
    var r := Last(w.storage, req.spec.name).value;
    LastGreatest(w.storage, req.spec.name);
    PutLast(w.storage, req.spec.name, Unlocked(r));
    UnlockLatest(req.canonical, w.status.history, Unlocked(r));
  }

  /** What is recorded and stored after an action was before, or is gained by it. */
  lemma ActionKeepsWithin(req: Request, a: Action, w: World, down: bool, helm: HelmRun, since: set<int>)
    requires WellKeyed(w.storage) && (a.Install? || Within(req.spec.name, w, since))
    ensures var w' := Execute(req, a, w, down, helm).world;
            Within(req.spec.name, w', (if a.Install? then {} else since)
                                      + (AddedBy(a, helm.writes) + NewlyStored(req.spec.name, a, w.storage, helm.writes))
                                        * StoredVersions(w'.storage, req.spec.name))
  {
    var w' := Execute(req, a, w, down, helm).world;
    ExecuteVersions(req, a, w, down, helm);
    forall s | s in w'.status.history && Key(req.spec.name, s.version) in w'.storage
      ensures s.version in StoredVersions(w'.storage, req.spec.name)
      ensures s.version in AddedBy(a, helm.writes) + NewlyStored(req.spec.name, a, w.storage, helm.writes)
              || (!a.Install? && s.version in since)
    {
      assert s.version in Versions(w'.status.history);
      ExecuteStored(req, a, w, down, helm, req.spec.name, s.version);
    }
  }

  lemma ActedSealed(req: Request, e: Event, since: set<int>)
    requires e.ran.Some? && WellKeyed(e.decided.storage)
    requires e.after == Execute(req, e.ran.value, e.decided, e.turn.actionDown, e.turn.helm).world
    requires Within(req.spec.name, e.decided, if e.state.Unmanaged? then {} else since)
             || (e.ran == Some(Unlock) && Stale(req.spec.name, e.decided))
    ensures WellKeyed(e.after.storage)
    ensures Within(req.spec.name, e.after, SinceStoredEvent(req.spec.name, since, e)) || Stale(req.spec.name, e.after)
  {
    ExecuteWellKeyed(req, e.ran.value, e.decided, e.turn.actionDown, e.turn.helm);
    if Within(req.spec.name, e.decided, if e.state.Unmanaged? then {} else since) {
      ActionKeepsWithin(req, e.ran.value, e.decided, e.turn.actionDown, e.turn.helm, if e.state.Unmanaged? then {} else since);
    } else {
      UnlockStale(req, e.decided, e.turn.actionDown, e.turn.helm);
    }
  }

  lemma EventSealed(req: Request, w: World, e: Event, since: set<int>)
    requires Recorded(req, w, e) && e.turn.foreign.None? && Sealed(req.spec.name, req.spec.ns, w, since) && Orderly(req, e)
    ensures Sealed(req.spec.name, req.spec.ns, e.after, SinceStoredEvent(req.spec.name, since, e))
  {
    DecidedSealed(req, w, e, since);
    EventTidy(req, w, e);
    if e.ran.Some? {
      ActedSealed(req, e, since);
    }
  }

  /** The install leaves the last release as it was, and pending. No install does
      that to a release it replaces. */
  ghost predicate LocksLast(name: string, sto: Storage, ws: seq<Write>) {
    var before, after := Last(sto, name), Last(Apply(sto, ws), name);
    && before.Some? && after.Some? && after.value.version == before.value.version && IsLocked(after.value.status)
  }

  /** The writes that an action can have made when a crash cuts it short. An
      install can have made any that do not put the release it replaces, under
      its own version, among the pending ones; an unlock writes one release, and
      all other writes are possible. */
  ghost predicate CutShort(req: Request, e: Event, cut: seq<Write>) {
    cut != [] ==>
      && e.ran.Some?
      && match e.ran.value
         case Install => !LocksLast(req.spec.name, e.decided.storage, cut)
         case Unlock =>
           var last := Last(e.decided.storage, req.spec.name);
           last.Some? && cut == [Put(Unlocked(last.value))]
         case CorrectDrift => false
         case _ => true
  }

  /** What can be observed of the last release. */
  function ObservedLast(sto: Storage, name: string): Option<Observation> {
    var last := Last(sto, name);
    if last.None? then None else Some(ObserveRelease(last.value))
  }

  /** An install has started over once the last release is not what it was. */
  ghost predicate HasStartedOver(name: string, e: Event, cut: seq<Write>) {
    e.ran == Some(Install) && ObservedLast(Apply(e.decided.storage, cut), name) != ObservedLast(e.decided.storage, name)
  }

  /** The versions in storage that were recorded or stored since the object last
      started over, if the event is cut short. */
  ghost function SinceCut(name: string, since: set<int>, e: Event, cut: seq<Write>): set<int> {
    (if e.state.Unmanaged? || HasStartedOver(name, e, cut) then {} else since)
    + (if e.ran.None? then {} else NewlyStored(name, e.ran.value, e.decided.storage, cut))
  }

  lemma CutStored(sto: Storage, cut: seq<Write>, name: string, version: int)
    requires Key(name, version) in Apply(sto, cut)
    ensures Key(name, version) in sto || version in VersionsOf(cut) - StoredVersions(sto, name)
  {
    AppliedKeys(sto, cut, Key(name, version));
  }

  lemma InstallStates(req: Request, st: Status, sto: Storage, state: ReleaseStatus, down: bool)
    requires ActionForState(req, st, sto, state, down).next == Run(Install)
    ensures state.Absent?
  {
  }

  lemma AbsentIsLatest(req: Request, st: Status, sto: Storage, down: bool, diff: Diff)
    requires Genuine(st.history) && Determine(req, st, sto, down, diff) == Some(Absent)
    requires st.history != [] && Last(sto, req.spec.name).Some?
    ensures var cur, r := Latest(st.history).value, Last(sto, req.spec.name).value;
            && cur.version == r.version && !cur.Legacy() && cur.digest.Digest?
            && cur.digest.content == Encoded(ObserveRelease(r).(oci := cur.oci))
  {
    LatestMember(st.history);
  }

  /** An install finds no release, or an uninstalled one that is the last one
      recorded, if anything is. */
  lemma InstallFromLatest(req: Request, w: World, e: Event)
    requires Recorded(req, w, e) && e.ran == Some(Install) && Genuine(w.status.history)
    requires e.decided.status.history != [] && Last(e.seen.storage, req.spec.name).Some?
    ensures var cur, r := Latest(e.decided.status.history).value, Last(e.seen.storage, req.spec.name).value;
            && cur.version == r.version && !cur.Legacy() && cur.digest.Digest?
            && cur.digest.content == Encoded(ObserveRelease(r).(oci := cur.oci))
  {
    var st := SortedByLookup(req, e.seen.status, e.seen.storage, e.turn.lastDown);
    InstallStates(req, st, e.seen.storage, e.state, e.turn.getDown);
    DecidedHistory(req, w, e);
    LatestMember(e.decided.status.history);
    AbsentIsLatest(req, e.seen.status, e.seen.storage, e.turn.lastDown, e.turn.diff);
  }

  /** Where nothing was stored, everything stored is new. */
  lemma CutFromNothing(name: string, w: World, cut: seq<Write>)
    requires Last(w.storage, name).None?
    ensures Within(name, World(w.status, Apply(w.storage, cut)), VersionsOf(cut) - StoredVersions(w.storage, name))
  {
    forall k | k in Apply(w.storage, cut) && k.name == name ensures k.version in VersionsOf(cut) - StoredVersions(w.storage, name) {
      assert k in w.storage ==> k.version in StoredVersions(w.storage, name);
      CutStored(w.storage, cut, name, k.version);
    }
  }

  /** Where nothing is stored, nothing that is recorded is. */
  lemma NothingStored(name: string, w: World, since: set<int>)
    requires Last(w.storage, name).None?
    ensures Within(name, w, since)
  {
    forall k | k in w.storage ensures k.name != name {
      assert k.name == name ==> k.version in StoredVersions(w.storage, name);
    }
  }

  /** Nor is it among what an install that is cut short leaves. */
  lemma EarlierLifeNotCut(name: string, e: Event, cut: seq<Write>, since: set<int>, version: int)
    requires HasStartedOver(name, e, cut) && Key(name, version) in e.decided.storage
    ensures version !in SinceCut(name, since, e, cut)
  {
    assert version in StoredVersions(e.decided.storage, name);
  }

  /** An install that is cut short once it has started over leaves a history that
      the controller will drop, unless nothing that it records is stored but
      what the install stored anew. */
  lemma InstallCut(req: Request, w: World, e: Event, cut: seq<Write>)
    requires Recorded(req, w, e) && Genuine(w.status.history) && WellKeyed(e.decided.storage)
    requires e.ran == Some(Install) && !LocksLast(req.spec.name, e.decided.storage, cut)
    requires HasStartedOver(req.spec.name, e, cut)
    ensures var w' := World(e.decided.status, Apply(e.decided.storage, cut));
            || Within(req.spec.name, w', NewlyStored(req.spec.name, Install, e.decided.storage, cut))
            || Stale(req.spec.name, w') || Rewritten(req.spec.name, w')
  {
    var name, sto := req.spec.name, e.decided.storage;
    var w' := World(e.decided.status, Apply(sto, cut));
    if Last(sto, name).None? {
      CutFromNothing(name, e.decided, cut);
    } else if Last(w'.storage, name).None? {
      NothingStored(name, w', NewlyStored(name, Install, sto, cut));
    } else if w'.status.history != [] {
      InstallFromLatest(req, w, e);
    }
  }

  /** The crash that comes between the two writes of an install over a kept
      release, of which the first marks that release as superseded: it leaves
      older snapshots recorded, and a history that will be dropped. */
  lemma ReplacingCut(req: Request, w: World, e: Event)
    requires Recorded(req, w, e) && e.ran == Some(Install) && WellKeyed(e.decided.storage)
    requires Genuine(w.status.history) && e.decided.status.history != [] && Last(e.decided.storage, req.spec.name).Some?
    ensures var cut := [Put(Last(e.decided.storage, req.spec.name).value.(status := Superseded))];
            && CutShort(req, e, cut) && HasStartedOver(req.spec.name, e, cut)
            && Rewritten(req.spec.name, World(e.decided.status, Apply(e.decided.storage, cut)))
  {
    var name, sto := req.spec.name, e.decided.storage;
    var r := Last(sto, name).value.(status := Superseded);
    LastGreatest(sto, name);
    PutLast(sto, name, r);
    assert [Put(r)][..0] == [] && Apply(sto, [Put(r)]) == ApplyOne(sto, Put(r));
    InstallFromLatest(req, w, e);
  }

  lemma UnlockCut(req: Request, w: World, cut: seq<Write>, since: set<int>)
    requires WellKeyed(w.storage) && Last(w.storage, req.spec.name).Some?
    requires cut == [Put(Unlocked(Last(w.storage, req.spec.name).value))]
    ensures var w' := World(w.status, Apply(w.storage, cut));
            && (Within(req.spec.name, w, since) ==> Within(req.spec.name, w', since))
            && (Stale(req.spec.name, w) ==> Stale(req.spec.name, w'))
  {
    var r := Last(w.storage, req.spec.name).value;
    LastGreatest(w.storage, req.spec.name);
    PutLast(w.storage, req.spec.name, Unlocked(r));
    assert cut[..0] == [] && Apply(w.storage, cut) == ApplyOne(w.storage, Put(Unlocked(r)));
  }

  lemma OtherCut(name: string, w: World, cut: seq<Write>, since: set<int>)
    requires Within(name, w, since)
    ensures Within(name, World(w.status, Apply(w.storage, cut)), since + (VersionsOf(cut) - StoredVersions(w.storage, name)))
  {
    var w' := World(w.status, Apply(w.storage, cut));
    forall s | s in w'.status.history && Key(name, s.version) in w'.storage
      ensures s.version in since + (VersionsOf(cut) - StoredVersions(w.storage, name))
    {
      CutStored(w.storage, cut, name, s.version);
    }
  }

  lemma EventCut(req: Request, w: World, e: Event, since: set<int>, cut: seq<Write>)
    requires Recorded(req, w, e) && e.turn.foreign.None? && Sealed(req.spec.name, req.spec.ns, w, since) && CutShort(req, e, cut)
    ensures Sealed(req.spec.name, req.spec.ns, World(e.decided.status, Apply(e.decided.storage, cut)),
                   SinceCut(req.spec.name, since, e, cut))
  {
    DecidedSealed(req, w, e, since);
    ApplyWellKeyed(e.decided.storage, cut);
    if cut != [] {
      if e.ran == Some(Unlock) {
        UnlockCut(req, e.decided, cut, since);
      } else if HasStartedOver(req.spec.name, e, cut) {
        InstallCut(req, w, e, cut);
      } else {
        OtherCut(req.spec.name, e.decided, cut, if e.state.Unmanaged? then {} else since);
      }
    }
  }

  // ---------- Runs with such crashes ----------

  /** One attempt, and the writes of the action that it crashes in. */
  datatype Step = Step(attempt: Attempt, cut: seq<Write>)

  function Stepped(w: World, s: Step): World {
    var w' := Survives(w, s.attempt);
    World(w'.status, Apply(w'.storage, s.cut))
  }

  function AfterSteps(w: World, steps: seq<Step>): World {
    if steps == [] then w else Stepped(AfterSteps(w, steps[..|steps| - 1]), steps[|steps| - 1])
  }

  /** The step is for the release, nobody else writes, Helm behaves in the actions
      that are completed, and only an action that is cut short leaves writes
      behind. */
  ghost predicate Plausible(name: string, ns: string, w: World, s: Step) {
    && s.attempt.req.spec.name == name && s.attempt.req.spec.ns == ns
    && (forall i :: s.attempt.env(i).foreign.None?)
    && (forall e | e in Lived(w, s.attempt) :: Orderly(s.attempt.req, e))
    && (if CutsIn(w, s.attempt)
        then CutShort(s.attempt.req, Attempted(w, s.attempt).events[s.attempt.crash.value.at], s.cut)
        else s.cut == [])
  }

  ghost predicate AllPlausible(name: string, ns: string, w: World, steps: seq<Step>) {
    steps != [] ==>
      var init := steps[..|steps| - 1];
      AllPlausible(name, ns, w, init) && Plausible(name, ns, AfterSteps(w, init), steps[|steps| - 1])
  }

  ghost function SinceStep(base: set<int>, w: World, s: Step): set<int> {
    var since := SinceStored(s.attempt.req.spec.name, base, Lived(w, s.attempt));
    if CutsIn(w, s.attempt)
    then SinceCut(s.attempt.req.spec.name, since, Attempted(w, s.attempt).events[s.attempt.crash.value.at], s.cut)
    else since
  }

  ghost function SinceSteps(w: World, steps: seq<Step>): set<int> {
    if steps == [] then Versions(w.status.history)
    else SinceStep(SinceSteps(w, steps[..|steps| - 1]), AfterSteps(w, steps[..|steps| - 1]), steps[|steps| - 1])
  }

  lemma {:induction false} EventsSealed(req: Request, w: World, since: set<int>, events: seq<Event>, n: nat)
    requires Linked(req, w, events) && n <= |events| && Sealed(req.spec.name, req.spec.ns, w, since)
    requires forall e | e in events[..n] :: e.turn.foreign.None? && Orderly(req, e)
    ensures Sealed(req.spec.name, req.spec.ns, ReachedWorld(w, events[..n]), SinceStored(req.spec.name, since, events[..n]))
    decreases n
  {
    if n > 0 {
      var e, rest := events[0], events[1..];
      PrefixCons(events, n);
      ReachedCons(w, e, rest[..n - 1]);
      SinceStoredCons(req.spec.name, since, e, rest[..n - 1]);
      EventSealed(req, w, e, since);
      EventsSealed(req, e.after, SinceStoredEvent(req.spec.name, since, e), rest, n - 1);
    }
  }

  lemma SealedSorted(name: string, ns: string, w: World, since: set<int>, st: Status)
    requires Sealed(name, ns, w, since) && (st.history == w.status.history || st.history == Sorted(w.status.history))
    ensures Sealed(name, ns, World(st, w.storage), since)
  {
    var h := w.status.history;
    SortedMembers(h);
    LatestSorted(h);
    SortedNames(h, name, ns);
    SortedGenuine(h);
  }

  /** The world before event `i` of an attempt. */
  lemma AttemptSealed(w: World, a: Attempt, since: set<int>, i: nat)
    requires Sealed(a.req.spec.name, a.req.spec.ns, w, since) && (forall j :: a.env(j).foreign.None?)
    requires i <= |Attempted(w, a).events| && forall e | e in Attempted(w, a).events[..i] :: Orderly(a.req, e)
    ensures var w', events := World(Prepare(a.req, w.status), w.storage), Attempted(w, a).events;
            && Linked(a.req, w', events) && (forall e | e in events :: e.turn.foreign.None?)
            && Sealed(a.req.spec.name, a.req.spec.ns, ReachedWorld(w', events[..i]), SinceStored(a.req.spec.name, since, events[..i]))
            && (i < |events| ==> Recorded(a.req, ReachedWorld(w', events[..i]), events[i]))
  {
    var w', events := World(Prepare(a.req, w.status), w.storage), Attempted(w, a).events;
    RunLinked(a.req, w', [], a.env, 0);
    RunSolitary(a.req, w', [], a.env, 0);
    SealedSorted(a.req.spec.name, a.req.spec.ns, w, since, w'.status);
    EventsSealed(a.req, w', since, events, i);
    if i < |events| {
      LinkedAfter(a.req, w', events, i);
    }
  }

  lemma CutSealed(name: string, ns: string, w: World, s: Step, since: set<int>)
    requires Sealed(name, ns, w, since) && Plausible(name, ns, w, s) && CutsIn(w, s.attempt)
    ensures Sealed(name, ns, Stepped(w, s), SinceStep(since, w, s))
  {
    var a := s.attempt;
    var w', events, n := World(Prepare(a.req, w.status), w.storage), Attempted(w, a).events, a.crash.value.at;
    AttemptSealed(w, a, since, n);
    EventCut(a.req, ReachedWorld(w', events[..n]), events[n], SinceStored(a.req.spec.name, since, events[..n]), s.cut);
  }

  lemma CompletedSealed(w: World, a: Attempt, since: set<int>)
    requires Sealed(a.req.spec.name, a.req.spec.ns, w, since) && (forall i :: a.env(i).foreign.None?)
    requires forall e | e in Attempted(w, a).events :: Orderly(a.req, e)
    ensures Sealed(a.req.spec.name, a.req.spec.ns, World(Handled(a.req, Attempted(w, a).world.status), Attempted(w, a).world.storage),
                   SinceStored(a.req.spec.name, since, Attempted(w, a).events))
  {
    var w', o := World(Prepare(a.req, w.status), w.storage), Attempted(w, a);
    assert o.events[..|o.events|] == o.events;
    AttemptSealed(w, a, since, |o.events|);
    EndOfAttempt(w, a);
    SealedSorted(a.req.spec.name, a.req.spec.ns, ReachedWorld(w', o.events), SinceStored(a.req.spec.name, since, o.events), Handled(a.req, o.world.status));
  }

  lemma FollowingSealed(name: string, ns: string, w: World, s: Step, since: set<int>)
    requires Sealed(name, ns, w, since) && Plausible(name, ns, w, s) && Crashes(w, s.attempt) && !CutsIn(w, s.attempt)
    ensures Sealed(name, ns, Stepped(w, s), SinceStep(since, w, s))
  {
    AttemptSealed(w, s.attempt, since, s.attempt.crash.value.at + 1);
  }

  lemma UncutSealed(name: string, ns: string, w: World, s: Step, since: set<int>)
    requires Sealed(name, ns, w, since) && Plausible(name, ns, w, s) && !Crashes(w, s.attempt)
    ensures Sealed(name, ns, Stepped(w, s), SinceStep(since, w, s))
  {
    CompletedSealed(w, s.attempt, since);
  }

  lemma StepSealed(name: string, ns: string, w: World, s: Step, since: set<int>)
    requires Sealed(name, ns, w, since) && Plausible(name, ns, w, s)
    ensures Sealed(name, ns, Stepped(w, s), SinceStep(since, w, s))
  {
    if CutsIn(w, s.attempt) {
      CutSealed(name, ns, w, s, since);
    } else if Crashes(w, s.attempt) {
      FollowingSealed(name, ns, w, s, since);
    } else {
      UncutSealed(name, ns, w, s, since);
    }
  }

  /** In every run in which only the controller writes, Helm behaves, and crashes
      may cut any action short, a rollback goes to a version recorded, or newly
      stored, at or after the most recent install, even one that was cut short
      once it had started over, and whose predecessors are therefore still
      recorded. */
  lemma {:induction false} NoRollbackCrossesCutInstall(name: string, ns: string, w: World, steps: seq<Step>)
    requires Tidy(name, ns, w.status.history) && WellKeyed(w.storage) && AllPlausible(name, ns, w, steps)
    ensures Sealed(name, ns, AfterSteps(w, steps), SinceSteps(w, steps))
    ensures forall next, i {:trigger RollsBackNext(name, ns, AfterSteps(w, steps), SinceSteps(w, steps), next, i)} ::
              RollsBackNext(name, ns, AfterSteps(w, steps), SinceSteps(w, steps), next, i)
  {
    if steps == [] {
      assert forall s | s in w.status.history :: s.version in Versions(w.status.history);
    } else {
      var init, s := steps[..|steps| - 1], steps[|steps| - 1];
      NoRollbackCrossesCutInstall(name, ns, w, init);
      StepSealed(name, ns, AfterSteps(w, init), s, SinceSteps(w, init));
    }
    forall next, i ensures RollsBackNext(name, ns, AfterSteps(w, steps), SinceSteps(w, steps), next, i) {
      NextRollsBack(name, ns, AfterSteps(w, steps), SinceSteps(w, steps), next, i);
    }
  }

  /** Event `i` of the next attempt, if it rolls back, does so to a version recorded
      or newly stored since the most recent install, as of that event. */
  ghost predicate RollsBackNext(name: string, ns: string, w: World, since: set<int>, next: Attempt, i: nat) {
    var events := Attempted(w, next).events;
    && i < |events| && next.req.spec.name == name && next.req.spec.ns == ns && (forall j :: next.env(j).foreign.None?)
    && (forall e | e in events[..i] :: Orderly(next.req, e))
    ==> RollsBackWithin(next.req, events[i], SinceStored(name, since, events[..i]))
  }

  lemma NextRollsBack(name: string, ns: string, w: World, since: set<int>, next: Attempt, i: nat)
    requires Sealed(name, ns, w, since)
    ensures RollsBackNext(name, ns, w, since, next, i)
  {
    var w', events := World(Prepare(next.req, w.status), w.storage), Attempted(w, next).events;
    if && i < |events| && next.req.spec.name == name && next.req.spec.ns == ns && (forall j :: next.env(j).foreign.None?)
       && (forall e | e in events[..i] :: Orderly(next.req, e))
    {
      AttemptSealed(w, next, since, i);
      assert events[i] in events;
      SealedRollsBack(next.req, ReachedWorld(w', events[..i]), events[i], SinceStored(name, since, events[..i]));
    }
  }
}
