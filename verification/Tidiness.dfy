/** What every run keeps of the snapshot history: snapshots are genuine, and
    while Helm behaves their versions are distinct, whatever others write and
    wherever the controller crashes. */
module Tidiness {
  import opened Api
  import opened Snapshots
  import opened Releases
  import opened Recording
  import opened Requests
  import opened State
  import opened Actions
  import opened AtomicRelease
  import opened Runs
  import opened Coherence

  // ---------- Genuine snapshots ----------

  /** What the snapshot says of its release is what its digest says. */
  ghost predicate SelfConsistent(s: Snapshot) {
    && s.digest.Digest? && s.configDigest.Digest? && s.configDigest.content == s.digest.content.config
    && s.status == s.digest.content.status
    && s.chartName == s.digest.content.chartName && s.chartVersion == s.digest.content.chartVersion
  }

  /** Snapshots the controller takes are about the release they name, in the
      current format, and say of it what they were taken of. */
  ghost predicate Genuine(h: seq<Snapshot>) {
    forall s | s in h :: Sound(s) && !s.Legacy() && SelfConsistent(s)
  }

  ghost predicate GenuineStatus(st: Status) {
    Genuine(st.history)
  }

  lemma ObserveOneGenuine(canonical: string, o: Observer, h: seq<Snapshot>, r: Release)
    requires Genuine(h)
    ensures Genuine(ObserveOne(canonical, o, h, r))
  {
    SortedMembers(h);
    var i := FindTarget(h, r.name, r.ns, r.version);
  }

  lemma {:induction false} ObserveAllGenuine(canonical: string, o: Observer, h: seq<Snapshot>, ws: seq<Write>)
    requires Genuine(h)
    ensures Genuine(ObserveAll(canonical, o, h, ws))
  {
    if ws != [] {
      ObserveAllGenuine(canonical, o, h, ws[..|ws| - 1]);
      ObserveOneGenuine(canonical, o, ObserveAll(canonical, o, h, ws[..|ws| - 1]), ws[|ws| - 1].rls);
    }
  }

  lemma RecordGenuine(canonical: string, ws: seq<Write>, h: seq<Snapshot>, oci: string, action: ReleaseAction)
    requires Genuine(h)
    ensures Genuine(Record(canonical, Observe(ws), h, oci, action))
  {
  }

  lemma SortedGenuine(h: seq<Snapshot>)
    requires Genuine(h)
    ensures Genuine(Sorted(h))
  {
    SortedMembers(h);
  }

  lemma ExecuteGenuine(req: Request, a: Action, w: World, down: bool, helm: HelmRun)
    requires Genuine(w.status.history)
    ensures Genuine(Execute(req, a, w, down, helm).world.status.history)
  {
    var h, oci, ws := w.status.history, w.status.lastAttemptedRevisionDigest, helm.writes;
    SortedGenuine(h);
    match a
    case Install =>
      RecordGenuine(req.canonical, ws, [], oci, ActionInstall);
      SortedGenuine(Record(req.canonical, Observe(ws), [], oci, ActionInstall));
    case Upgrade =>
      RecordGenuine(req.canonical, ws, h, oci, ActionUpgrade);
      SortedGenuine(Record(req.canonical, Observe(ws), h, oci, ActionUpgrade));
    case Test =>
      ObserveAllGenuine(req.canonical, TestObserver(req.spec.testFilters), Sorted(h), ws);
      SortedGenuine(ObserveAll(req.canonical, TestObserver(req.spec.testFilters), Sorted(h), ws));
    case Rollback =>
      ObserveAllGenuine(req.canonical, RollbackObserver, Sorted(h), ws);
      SortedGenuine(ObserveAll(req.canonical, RollbackObserver, Sorted(h), ws));
    case UninstallRemediation =>
      ObserveAllGenuine(req.canonical, UninstallObserver(ActionUninstallRemediation), Sorted(h), ws);
      SortedGenuine(ObserveAll(req.canonical, UninstallObserver(ActionUninstallRemediation), Sorted(h), ws));
    case Unlock =>
      if Last(w.storage, req.spec.name).Some? {
        ObserveOneGenuine(req.canonical, UnlockObserver, h, Unlocked(Last(w.storage, req.spec.name).value));
      }
    case CorrectDrift =>
  }

  lemma CutGenuine(h: seq<Snapshot>, h': seq<Snapshot>)
    requires Genuine(h) && CutFrom(h, h')
    ensures Genuine(h')
  {
    SortedMembers(h);
  }

  lemma EventGenuine(req: Request, w: World, e: Event)
    requires Recorded(req, w, e) && Genuine(w.status.history)
    ensures Genuine(e.decided.status.history) && Genuine(e.after.status.history)
  {
    var st := SortedByLookup(req, e.seen.status, e.seen.storage, e.turn.lastDown);
    SortedGenuine(w.status.history);
    DecisionPrefix(req, st, e.seen.storage, e.state, e.turn.getDown);
    if !e.state.Unmanaged? {
      CutGenuine(st.history, e.decided.status.history);
    }
    if e.ran.Some? {
      ExecuteGenuine(req, e.ran.value, e.decided, e.turn.actionDown, e.turn.helm);
    }
  }

  /** In every run from an empty status, through any requests, any behaviour of
      the environment and any crashes, all snapshots are genuine. */
  lemma SnapshotsGenuine(sto: Storage, attempts: seq<Attempt>)
    ensures Genuine(After(World(EMPTY_STATUS, sto), attempts).status.history)
  {
    forall a | a in attempts ensures AttemptKeeps(a.req, GenuineStatus) {
      forall w, e | Recorded(a.req, w, e) && GenuineStatus(w.status)
        ensures GenuineStatus(e.decided.status) && GenuineStatus(e.after.status)
      {
        EventGenuine(a.req, w, e);
      }
      forall st | GenuineStatus(st) ensures GenuineStatus(st.(history := Sorted(st.history))) {
        SortedGenuine(st.history);
      }
    }
    KeptByAttempts(GenuineStatus, World(EMPTY_STATUS, sto), attempts);
  }

  // ---------- Distinct versions ----------

  ghost predicate Tidy(name: string, ns: string, h: seq<Snapshot>) {
    Distinct(h) && Named(h, name, ns) && Genuine(h)
  }

  /** If the event ran an action, the storage it met is well-formed and Helm
      behaved. Others may have made anything of that storage. */
  ghost predicate Orderly(req: Request, e: Event) {
    e.ran.Some? ==> WellKeyed(e.seen.storage) && Behaved(req, e.ran.value, e.decided.storage, e.turn.helm)
  }

  /** A release found to be managed is the one last recorded. */
  lemma ManagedIsLatest(req: Request, st: Status, sto: Storage, down: bool, diff: Diff)
    requires Genuine(st.history)
    requires Determine(req, st, sto, down, diff) in {Some(InSync), Some(OutOfSync), Some(Failed), Some(Untested), Some(Drifted)}
    ensures st.history != [] && Last(sto, req.spec.name).Some?
    ensures Latest(st.history).value.version == Last(sto, req.spec.name).value.version
  {
    LatestMember(st.history);
  }

  lemma UpgradeStates(req: Request, st: Status, sto: Storage, state: ReleaseStatus, down: bool)
    requires ActionForState(req, st, sto, state, down).next == Run(Upgrade)
    ensures state in {InSync, OutOfSync, Failed, Unmanaged}
  {
  }

  lemma CutLatest(h: seq<Snapshot>, h': seq<Snapshot>)
    requires CutFrom(h, h')
    ensures Latest(h') == Latest(h) && (Distinct(h) ==> Distinct(h')) && forall s | s in h' :: s in h
  {
    if h' != h {
      PrefixLatest(h, h');
    }
  }

  /** What a decision leaves of the history. */
  lemma DecidedHistory(req: Request, w: World, e: Event)
    requires Recorded(req, w, e)
    ensures e.state.Unmanaged? ==> e.decided.status.history == []
    ensures !e.state.Unmanaged? ==> Latest(e.decided.status.history) == Latest(w.status.history)
    ensures Distinct(w.status.history) ==> Distinct(e.decided.status.history)
    ensures forall s | s in e.decided.status.history :: s in w.status.history
  {
    var st := SortedByLookup(req, e.seen.status, e.seen.storage, e.turn.lastDown);
    SortedMembers(w.status.history);
    LatestSorted(w.status.history);
    if Distinct(w.status.history) {
      SortedDistinct(w.status.history);
    }
    DecisionPrefix(req, st, e.seen.storage, e.state, e.turn.getDown);
    if !e.state.Unmanaged? {
      CutLatest(st.history, e.decided.status.history);
    }
  }

  /** An upgrade starts from no history, or from one whose latest snapshot is of
      the last release in storage. */
  lemma UpgradeFromLatest(req: Request, w: World, e: Event)
    requires Recorded(req, w, e) && e.ran == Some(Upgrade) && Genuine(w.status.history)
    ensures var h, last := e.decided.status.history, Last(e.seen.storage, req.spec.name);
            h == [] || (last.Some? && Latest(h).value.version == last.value.version)
  {
    var st := SortedByLookup(req, e.seen.status, e.seen.storage, e.turn.lastDown);
    UpgradeStates(req, st, e.seen.storage, e.state, e.turn.getDown);
    DecidedHistory(req, w, e);
    if !e.state.Unmanaged? {
      ManagedIsLatest(req, e.seen.status, e.seen.storage, e.turn.lastDown, e.turn.diff);
    }
  }

  lemma SortedNames(h: seq<Snapshot>, name: string, ns: string)
    requires Distinct(h) && Named(h, name, ns)
    ensures Distinct(Sorted(h)) && Named(Sorted(h), name, ns)
  {
    SortedMembers(h);
    SortedDistinct(h);
  }

  /** An install or upgrade that makes a new greatest version, recorded over a
      history with nothing newer than the last release in storage. */
  lemma RecordNames(canonical: string, h: seq<Snapshot>, sto: Storage, ws: seq<Write>, oci: string, action: ReleaseAction,
                    name: string, ns: string)
    requires Distinct(h) && Named(h, name, ns) && WellKeyed(sto) && NewTop(name, ns, sto, ws)
    requires h == [] || (Last(sto, name).Some? && Latest(h).value.version == Last(sto, name).value.version)
    ensures var h' := Record(canonical, Observe(ws), h, oci, action);
            Distinct(h') && Named(h', name, ns)
  {
    ObserveKeys(ws);
    if ws != [] {
      var obs := Observe(ws);
      NewTopObserved(sto, ws, name, ns);
      ObserveNames(ws, name, ns);
      if h != [] {
        LatestIsTop(h);
        LastGreatest(sto, name);
      }
      RecordBatch(canonical, obs, h, oci, action);
      SameSubjectsNamed([Head(canonical, obs, oci, action)] + h, Record(canonical, obs, h, oci, action), name, ns);
    }
  }

  lemma ReleaseNames(req: Request, a: Action, w: World, down: bool, helm: HelmRun)
    requires (a.Install? || a.Upgrade?) && Behaved(req, a, w.storage, helm) && WellKeyed(w.storage)
    requires Distinct(w.status.history) && Named(w.status.history, req.spec.name, req.spec.ns)
    requires var h, last := w.status.history, Last(w.storage, req.spec.name);
             a.Install? || h == [] || (last.Some? && Latest(h).value.version == last.value.version)
    ensures var h' := Execute(req, a, w, down, helm).world.status.history;
            Distinct(h') && Named(h', req.spec.name, req.spec.ns)
  {
    var h, action := if a.Install? then [] else w.status.history, if a.Install? then ActionInstall else ActionUpgrade;
    var oci := w.status.lastAttemptedRevisionDigest;
    RecordNames(req.canonical, h, w.storage, helm.writes, oci, action, req.spec.name, req.spec.ns);
    SortedNames(Record(req.canonical, Observe(helm.writes), h, oci, action), req.spec.name, req.spec.ns);
  }

  lemma FollowedNames(req: Request, o: Observer, h: seq<Snapshot>, ws: seq<Write>)
    requires Distinct(h) && Named(h, req.spec.name, req.spec.ns) && AllOurs(ws, req.spec.name, req.spec.ns)
    ensures var h' := ObserveAll(req.canonical, o, Sorted(h), ws);
            && Distinct(Sorted(h)) && Named(Sorted(h), req.spec.name, req.spec.ns)
            && Distinct(h') && Named(h', req.spec.name, req.spec.ns)
            && Distinct(Sorted(h')) && Named(Sorted(h'), req.spec.name, req.spec.ns)
  {
    SortedNames(h, req.spec.name, req.spec.ns);
    ObserveAllNames(req.canonical, o, Sorted(h), ws, req.spec.name, req.spec.ns);
    SortedNames(ObserveAll(req.canonical, o, Sorted(h), ws), req.spec.name, req.spec.ns);
  }

  lemma BehavedOurs(req: Request, a: Action, sto: Storage, helm: HelmRun)
    requires Behaved(req, a, sto, helm) && !a.Unlock? && !a.CorrectDrift?
    ensures AllOurs(helm.writes, req.spec.name, req.spec.ns)
  {
    var name, ns := req.spec.name, req.spec.ns;
    match a
    case Test => TameOurs(TestObserver(req.spec.testFilters), name, ns, sto, helm.writes);
    case Rollback => TameOurs(RollbackObserver, name, ns, sto, helm.writes);
    case UninstallRemediation =>
      if !Purged(req, sto, helm.writes) {
        TameOurs(UninstallObserver(ActionUninstallRemediation), name, ns, sto, helm.writes);
      }
    case _ =>
  }

  lemma UnlockNames(canonical: string, h: seq<Snapshot>, r: Release, name: string, ns: string)
    requires Distinct(h) && Named(h, name, ns)
    ensures var h' := ObserveUnlock(canonical, h, r);
            Distinct(h') && Named(h', name, ns)
  {
    var i := FindTarget(h, r.name, r.ns, r.version);
    if i < |h| {
      assert h[i] in h;
      ReplaceKeeps(h, i, ObserveUnlock(canonical, h, r)[i], name, ns);
    }
  }

  lemma TestedHistory(req: Request, w: World, helm: HelmRun)
    requires w.status.history != []
    ensures RunTest(req, w, helm).world.status.history
              == Sorted(ObserveAll(req.canonical, TestObserver(req.spec.testFilters), Sorted(w.status.history), helm.writes))
  {
  }

  lemma TestNames(req: Request, w: World, helm: HelmRun)
    requires Behaved(req, Test, w.storage, helm)
    requires Distinct(w.status.history) && Named(w.status.history, req.spec.name, req.spec.ns)
    ensures var h' := RunTest(req, w, helm).world.status.history;
            Distinct(h') && Named(h', req.spec.name, req.spec.ns)
  {
    BehavedOurs(req, Test, w.storage, helm);
    FollowedNames(req, TestObserver(req.spec.testFilters), w.status.history, helm.writes);
    if w.status.history != [] {
      TestedHistory(req, w, helm);
    }
  }

  lemma RollbackNames(req: Request, w: World, helm: HelmRun)
    requires Behaved(req, Rollback, w.storage, helm)
    requires Distinct(w.status.history) && Named(w.status.history, req.spec.name, req.spec.ns)
    ensures var h' := RunRollback(req, w, helm).world.status.history;
            Distinct(h') && Named(h', req.spec.name, req.spec.ns)
  {
    BehavedOurs(req, Rollback, w.storage, helm);
    FollowedNames(req, RollbackObserver, w.status.history, helm.writes);
  }

  lemma UninstallNames(req: Request, w: World, helm: HelmRun)
    requires Behaved(req, UninstallRemediation, w.storage, helm)
    requires Distinct(w.status.history) && Named(w.status.history, req.spec.name, req.spec.ns)
    ensures var h' := RunUninstallRemediation(req, w, helm).world.status.history;
            Distinct(h') && Named(h', req.spec.name, req.spec.ns)
  {
    BehavedOurs(req, UninstallRemediation, w.storage, helm);
    FollowedNames(req, UninstallObserver(ActionUninstallRemediation), w.status.history, helm.writes);
  }

  lemma OtherNames(req: Request, a: Action, w: World, down: bool, helm: HelmRun)
    requires !a.Install? && !a.Upgrade? && Behaved(req, a, w.storage, helm)
    requires Distinct(w.status.history) && Named(w.status.history, req.spec.name, req.spec.ns)
    ensures var h' := Execute(req, a, w, down, helm).world.status.history;
            Distinct(h') && Named(h', req.spec.name, req.spec.ns)
  {
    match a
    case Test => TestNames(req, w, helm);
    case Rollback => RollbackNames(req, w, helm);
    case UninstallRemediation => UninstallNames(req, w, helm);
    case Unlock =>
      if Last(w.storage, req.spec.name).Some? {
        UnlockNames(req.canonical, w.status.history, Unlocked(Last(w.storage, req.spec.name).value), req.spec.name, req.spec.ns);
      }
    case CorrectDrift =>
  }

  lemma EventTidy(req: Request, w: World, e: Event)
    requires Recorded(req, w, e) && Tidy(req.spec.name, req.spec.ns, w.status.history)
    ensures Tidy(req.spec.name, req.spec.ns, e.decided.status.history)
    ensures Orderly(req, e) ==> Tidy(req.spec.name, req.spec.ns, e.after.status.history)
  {
    DecidedHistory(req, w, e);
    EventGenuine(req, w, e);
    if e.ran.Some? && Orderly(req, e) {
      if e.ran.value.Install? || e.ran.value.Upgrade? {
        if e.ran.value.Upgrade? {
          UpgradeFromLatest(req, w, e);
        }
        ReleaseNames(req, e.ran.value, e.decided, e.turn.actionDown, e.turn.helm);
      } else {
        OtherNames(req, e.ran.value, e.decided, e.turn.actionDown, e.turn.helm);
      }
    }
  }

  /** The decisions of a run are made on tidy histories, up to and including the
      first event that is not orderly. */
  lemma {:induction false} EventsTidy(req: Request, w: World, events: seq<Event>, n: nat)
    requires Linked(req, w, events) && Tidy(req.spec.name, req.spec.ns, w.status.history)
    requires n <= |events| && forall e | e in events[..n] :: Orderly(req, e)
    ensures Tidy(req.spec.name, req.spec.ns, Reached(w, events[..n]).history)
    ensures n < |events| ==> Tidy(req.spec.name, req.spec.ns, events[n].decided.status.history)
    decreases |events|
  {
    if events != [] {
      var e, rest := events[0], events[1..];
      EventTidy(req, w, e);
      if n > 0 {
        PrefixCons(events, n);
        EventsTidy(req, e.after, rest, n - 1);
      }
    }
  }

  lemma AttemptTidy(w: World, a: Attempt, n: nat)
    requires Tidy(a.req.spec.name, a.req.spec.ns, w.status.history)
    requires var events := Attempted(w, a).events;
             n <= |events| && forall e | e in events[..n] :: Orderly(a.req, e)
    ensures var o := Attempted(w, a);
            && (n < |o.events| ==> Tidy(a.req.spec.name, a.req.spec.ns, o.events[n].decided.status.history))
            && (0 < n ==> Tidy(a.req.spec.name, a.req.spec.ns, o.events[n - 1].after.status.history))
            && (n == |o.events| ==> Tidy(a.req.spec.name, a.req.spec.ns, o.world.status.history))
  {
    var w', o := World(Prepare(a.req, w.status), w.storage), Attempted(w, a);
    RunLinked(a.req, w', [], a.env, 0);
    RunEnds(a.req, w', [], a.env, 0);
    EventsTidy(a.req, w', o.events, n);
    if n == |o.events| {
      assert o.events[..n] == o.events;
      SortedNames(Reached(w', o.events).history, a.req.spec.name, a.req.spec.ns);
      SortedGenuine(Reached(w', o.events).history);
    }
  }

  lemma SurvivorTidy(w: World, a: Attempt)
    requires Tidy(a.req.spec.name, a.req.spec.ns, w.status.history) && forall e | e in Lived(w, a) :: Orderly(a.req, e)
    ensures Tidy(a.req.spec.name, a.req.spec.ns, Survives(w, a).status.history)
  {
    if CutsIn(w, a) {
      AttemptTidy(w, a, a.crash.value.at);
    } else if Crashes(w, a) {
      AttemptTidy(w, a, a.crash.value.at + 1);
    } else {
      assert Attempted(w, a).events[..|Attempted(w, a).events|] == Attempted(w, a).events;
      AttemptTidy(w, a, |Attempted(w, a).events|);
    }
  }

  /** All attempts are for the release, and the actions they complete are
      orderly. */
  ghost predicate AllOrderly(name: string, ns: string, w: World, attempts: seq<Attempt>) {
    attempts != [] ==>
      var init, a := attempts[..|attempts| - 1], attempts[|attempts| - 1];
      && AllOrderly(name, ns, w, init)
      && a.req.spec.name == name && a.req.spec.ns == ns
      && forall e | e in Lived(After(w, init), a) :: Orderly(a.req, e)
  }

  /** Through every sequence of attempts at any requests for a release, with any
      crashes and any other writers, the history stays tidy as long as Helm
      behaves in the actions that are completed. */
  lemma {:induction false} HistoryTidy(name: string, ns: string, w: World, attempts: seq<Attempt>)
    requires Tidy(name, ns, w.status.history) && AllOrderly(name, ns, w, attempts)
    ensures Tidy(name, ns, After(w, attempts).status.history)
  {
    if attempts != [] {
      var init, a := attempts[..|attempts| - 1], attempts[|attempts| - 1];
      HistoryTidy(name, ns, w, init);
      SurvivorTidy(After(w, init), a);
    }
  }

  // ---------- Healing ----------

  /** What an install or upgrade records is coherent with what it stores. */
  lemma ReleaseHeals(req: Request, a: Action, w: World, down: bool, helm: HelmRun)
    requires (a.Install? || a.Upgrade?) && Behaved(req, a, w.storage, helm) && helm.writes != []
    requires Distinct(w.status.history) && Named(w.status.history, req.spec.name, req.spec.ns)
    requires StoreNamed(w.storage, req.spec.name, req.spec.ns)
    requires a.Upgrade? ==> UpToVersion(req.spec.name, w.status.history, w.storage)
    ensures Agrees(req, Execute(req, a, w, down, helm).world)
  {
    var h, action := if a.Install? then [] else w.status.history, if a.Install? then ActionInstall else ActionUpgrade;
    var oci, ws := w.status.lastAttemptedRevisionDigest, helm.writes;
    BatchHeals(req.canonical, h, w.storage, ws, oci, action, req.spec.name, req.spec.ns);
    FinishAgrees(req, w.status.(lastAction := action, history := Record(req.canonical, Observe(ws), h, oci, action)),
                 Apply(w.storage, ws), if a.Install? then req.spec.installRemediation else req.spec.upgradeRemediation,
                 MustRetry(if a.Install? then req.spec.installStrategy else req.spec.upgradeStrategy, req.defaultToRetry), helm);
  }

  lemma EventHeals(req: Request, w: World, e: Event)
    requires Recorded(req, w, e) && Tidy(req.spec.name, req.spec.ns, w.status.history) && Orderly(req, e)
    requires (e.ran == Some(Install) || e.ran == Some(Upgrade)) && e.turn.helm.writes != []
    requires StoreNamed(e.seen.storage, req.spec.name, req.spec.ns)
    ensures Agrees(req, e.after)
  {
    EventTidy(req, w, e);
    if e.ran == Some(Upgrade) {
      UpgradeFromLatest(req, w, e);
    }
    ReleaseHeals(req, e.ran.value, e.decided, e.turn.actionDown, e.turn.helm);
  }

  /** The history heals itself: in every run from an empty status, whatever writes
      crashes have lost and others have made, the first install or upgrade that
      writes makes history and storage agree again, as long as Helm behaves. */
  lemma HistoryHeals(name: string, ns: string, sto: Storage, attempts: seq<Attempt>, a: Attempt, i: nat)
    requires AllOrderly(name, ns, World(EMPTY_STATUS, sto), attempts) && a.req.spec.name == name && a.req.spec.ns == ns
    requires var events := Attempted(After(World(EMPTY_STATUS, sto), attempts), a).events;
             && i < |events| && (forall e | e in events[..i + 1] :: Orderly(a.req, e))
             && (events[i].ran == Some(Install) || events[i].ran == Some(Upgrade)) && events[i].turn.helm.writes != []
             && StoreNamed(events[i].seen.storage, name, ns)
    ensures Agrees(a.req, Attempted(After(World(EMPTY_STATUS, sto), attempts), a).events[i].after)
  {
    var w := After(World(EMPTY_STATUS, sto), attempts);
    var w', events := World(Prepare(a.req, w.status), w.storage), Attempted(w, a).events;
    HistoryTidy(name, ns, World(EMPTY_STATUS, sto), attempts);
    RunLinked(a.req, w', [], a.env, 0);
    PrefixSnoc(events, i + 1);
    EventsTidy(a.req, w', events, i);
    LinkedAfter(a.req, w', events, i);
    EventHeals(a.req, ReachedWorld(w', events[..i]), events[i]);
  }
}
