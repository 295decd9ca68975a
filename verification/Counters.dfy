/** The failure counters over whole runs: what every reachable status satisfies,
    and what the errors and panics of a reconciliation then mean. */
module Counters {
  import opened Api
  import opened Snapshots
  import opened Releases
  import opened Recording
  import opened Requests
  import opened State
  import opened Actions
  import opened AtomicRelease
  import opened Runs

  /** Failures of a kind are failures, and there is a last attempted action to
      blame them on. */
  ghost predicate Accounted(st: Status) {
    && 0 <= st.installFailures && 0 <= st.upgradeFailures
    && st.installFailures + st.upgradeFailures <= st.failures
    && (st.installFailures > 0 || st.upgradeFailures > 0 ==>
          st.lastAction == ActionInstall || st.lastAction == ActionUpgrade)
  }

  lemma FinishAccounted(req: Request, st: Status, sto: Storage, r: Remediation, retry: bool, helm: HelmRun)
    requires Accounted(st) && (st.lastAction == ActionInstall || st.lastAction == ActionUpgrade)
    ensures Accounted(FinishRelease(req, st, sto, r, retry, helm).world.status)
  {
  }

  lemma ReleaseAccounted(req: Request, a: Action, w: World, down: bool, helm: HelmRun)
    requires Accounted(w.status) && (a.Install? || a.Upgrade?)
    ensures Accounted(Execute(req, a, w, down, helm).world.status)
  {
    var h, action := if a.Install? then [] else w.status.history, if a.Install? then ActionInstall else ActionUpgrade;
    var st := w.status.(lastAction := action,
                        history := Record(req.canonical, Observe(helm.writes), h, w.status.lastAttemptedRevisionDigest, action));
    FinishAccounted(req, st, Apply(w.storage, helm.writes),
                    if a.Install? then req.spec.installRemediation else req.spec.upgradeRemediation,
                    MustRetry(if a.Install? then req.spec.installStrategy else req.spec.upgradeStrategy, req.defaultToRetry), helm);
  }

  lemma TestAccounted(req: Request, w: World, helm: HelmRun)
    requires Accounted(w.status)
    ensures Accounted(RunTest(req, w, helm).world.status)
  {
  }

  lemma RemediationAccounted(req: Request, w: World, helm: HelmRun)
    requires Accounted(w.status)
    ensures Accounted(RunRollback(req, w, helm).world.status)
    ensures Accounted(RunUninstallRemediation(req, w, helm).world.status)
  {
  }

  lemma ExecuteAccounted(req: Request, a: Action, w: World, down: bool, helm: HelmRun)
    requires Accounted(w.status)
    ensures Accounted(Execute(req, a, w, down, helm).world.status)
  {
    match a
    case Install => ReleaseAccounted(req, a, w, down, helm);
    case Upgrade => ReleaseAccounted(req, a, w, down, helm);
    case Test => TestAccounted(req, w, helm);
    case Rollback => RemediationAccounted(req, w, helm);
    case UninstallRemediation => RemediationAccounted(req, w, helm);
    case Unlock =>
    case CorrectDrift =>
  }

  lemma EventAccounted(req: Request, w: World, e: Event)
    requires Recorded(req, w, e) && Accounted(w.status)
    ensures Accounted(e.decided.status) && Accounted(e.after.status)
  {
    var st := SortedByLookup(req, e.seen.status, e.seen.storage, e.turn.lastDown);
    DecisionFrame(req, st, e.seen.storage, e.state, e.turn.getDown);
    if e.ran.Some? {
      ExecuteAccounted(req, e.ran.value, e.decided, e.turn.actionDown, e.turn.helm);
    }
  }

  lemma EventsAccounted(req: Request)
    ensures EventKeeps(req, Accounted)
  {
    forall w, e | Recorded(req, w, e) && Accounted(w.status)
      ensures Accounted(e.decided.status) && Accounted(e.after.status)
    {
      EventAccounted(req, w, e);
    }
  }

  lemma EndAccounted(req: Request)
    ensures EndKeeps(req, Accounted) && forall st | Accounted(st) :: Accounted(Prepare(req, st))
  {
  }

  lemma AttemptAccounted(req: Request)
    ensures AttemptKeeps(req, Accounted)
  {
    EventsAccounted(req);
    EndAccounted(req);
  }

  /** In every run from an empty status, through any requests, any behaviour of
      the environment and any crashes, the counters are accounted for. */
  lemma CountersAccounted(sto: Storage, attempts: seq<Attempt>)
    ensures Accounted(After(World(EMPTY_STATUS, sto), attempts).status)
  {
    forall a | a in attempts ensures AttemptKeeps(a.req, Accounted) {
      AttemptAccounted(a.req);
    }
    KeptByAttempts(Accounted, World(EMPTY_STATUS, sto), attempts);
  }

  // ---------- What the results mean ----------

  ghost predicate Exhausted(req: Request, st: Status) {
    req.spec.installRemediation.RetriesExhausted(st) || req.spec.upgradeRemediation.RetriesExhausted(st)
  }

  /** Helm reports that it made a release without writing one. */
  ghost predicate MadeNothing(e: Event) {
    && (e.ran == Some(Install) || e.ran == Some(Upgrade))
    && !e.turn.helm.failed && e.turn.helm.writes == []
  }

  /** `ExceededMaxRetries` comes with a counter above its limit and an active
      remediation to report, `RetryAfterInterval` with an active retry to take
      the interval from, and nothing panics unless Helm claims success for a
      release it did not write. */
  ghost predicate Meaningful(req: Request, last: Option<Event>, st: Status, result: Result) {
    && (result == Failure(ExceededMaxRetries) ==> Exhausted(req, st) && ActiveRemediation(req, st).Some?)
    && (result == Failure(RetryAfterInterval) ==> ActiveRetry(req, st))
    && (result.Panicked? ==> last.Some? && MadeNothing(last.value))
  }

  lemma RecordedNotEmpty(canonical: string, ws: seq<Write>, h: seq<Snapshot>, oci: string, action: ReleaseAction)
    requires ws != []
    ensures Record(canonical, Observe(ws), h, oci, action) != []
  {
    ObserveKeys(ws);
    RecordSubjects(canonical, Observe(ws), h, oci, action);
  }

  lemma ExecutePanics(req: Request, a: Action, w: World, down: bool, helm: HelmRun)
    requires Execute(req, a, w, down, helm).result.Panic?
    ensures (a.Install? || a.Upgrade?) && !helm.failed && helm.writes == []
  {
    var oci := w.status.lastAttemptedRevisionDigest;
    if a.Install? && helm.writes != [] {
      RecordedNotEmpty(req.canonical, helm.writes, [], oci, ActionInstall);
    }
    if a.Upgrade? && helm.writes != [] {
      RecordedNotEmpty(req.canonical, helm.writes, w.status.history, oci, ActionUpgrade);
    }
  }

  /** A decision fails for lack of retries only with a counter above its limit,
      and remediates only if there is an active remediation. */
  lemma DecisionMeaning(req: Request, st: Status, sto: Storage, state: ReleaseStatus, down: bool)
    ensures var d := ActionForState(req, st, sto, state, down);
            && (d.next == Fail(ExceededMaxRetries) ==> Exhausted(req, d.status))
            && (d.next.Run? && TypeOf(d.next.action) == TypeRemediate ==> ActiveRemediation(req, d.status).Some?)
  {
  }

  lemma ProceedMeaning(req: Request, d: Decision, e: Event, previous: seq<ReconcilerType>, t: Turn)
    requires Accounted(d.status) && e.decided.status == d.status && e.turn == t && e.ran.None?
    requires d.next == Fail(ExceededMaxRetries) ==> Exhausted(req, d.status)
    requires d.next.Run? && TypeOf(d.next.action) == TypeRemediate ==> ActiveRemediation(req, d.status).Some?
    requires d.next != Fail(RetryAfterInterval)
    ensures var r := Proceed(req, d, e, previous, t);
            r.Stop? ==> Meaningful(req, r.last, r.world.status, r.result)
  {
    if d.next.Run? {
      var a := d.next.action;
      var acted := Execute(req, a, e.decided, t.actionDown, t.helm);
      if acted.result.Panic? {
        ExecutePanics(req, a, e.decided, t.actionDown, t.helm);
      }
    }
  }

  /** What a decision is when its turn goes on from it. */
  lemma DecidedMeaning(req: Request, seen: World, state: ReleaseStatus, t: Turn)
    requires Accounted(seen.status)
    ensures var (d, e) := Decided(req, seen, state, t);
            && Accounted(d.status) && e.decided.status == d.status && e.turn == t && e.ran.None?
            && (d.next == Fail(ExceededMaxRetries) ==> Exhausted(req, d.status))
            && (d.next.Run? && TypeOf(d.next.action) == TypeRemediate ==> ActiveRemediation(req, d.status).Some?)
            && d.next != Fail(RetryAfterInterval)
  {
    var st := SortedByLookup(req, seen.status, seen.storage, t.lastDown);
    DecisionMeaning(req, st, seen.storage, state, t.getDown);
    DecisionFrame(req, st, seen.storage, state, t.getDown);
  }

  lemma StopMeaning(req: Request, w: World, previous: seq<ReconcilerType>, t: Turn)
    requires Accounted(w.status) && Turning(req, w, previous, t).Stop?
    ensures var r := Turning(req, w, previous, t);
            Meaningful(req, r.last, r.world.status, r.result)
  {
    var seen := Seen(w, t);
    var state := Determine(req, seen.status, seen.storage, t.lastDown, t.diff);
    if !t.canceled && state.Some? {
      var (d, e) := Decided(req, seen, state.value, t);
      DecidedMeaning(req, seen, state.value, t);
      ProceedMeaning(req, d, e, previous, t);
      assert Turning(req, w, previous, t) == Proceed(req, d, e, previous, t);
    }
  }

  lemma GoAccounted(req: Request, w: World, previous: seq<ReconcilerType>, t: Turn)
    requires Accounted(w.status) && Turning(req, w, previous, t).Go?
    ensures Accounted(Turning(req, w, previous, t).event.after.status)
  {
    TurnRecorded(req, w, previous, t);
    EventAccounted(req, w, Turning(req, w, previous, t).event);
  }

  lemma {:induction false} LoopMeaning(req: Request, w: World, previous: seq<ReconcilerType>, env: nat -> Turn, n: nat)
    requires Accounted(w.status)
    ensures var o := Reconciling(req, w, previous, env, n);
            Meaningful(req, if o.events == [] then None else Some(o.events[|o.events| - 1]), o.world.status, o.result)
    decreases Remaining(previous)
  {
    match Turning(req, w, previous, env(n))
    case Stop(_, _, _) =>
      StopMeaning(req, w, previous, env(n));
    case Go(e) =>
      GoAccounted(req, w, previous, env(n));
      GoShape(req, w, previous, env(n));
      LoopMeaning(req, e.after, previous + [TypeOf(e.ran.value)], env, n + 1);
  }

  /** Every result of a reconciliation in a run from an empty status means what
      its name says. */
  lemma ResultsMeaningful(sto: Storage, attempts: seq<Attempt>, a: Attempt)
    ensures var o := Attempted(After(World(EMPTY_STATUS, sto), attempts), a);
            Meaningful(a.req, if o.events == [] then None else Some(o.events[|o.events| - 1]), o.world.status, o.result)
  {
    CountersAccounted(sto, attempts);
    var w := After(World(EMPTY_STATUS, sto), attempts);
    LoopMeaning(a.req, World(Prepare(a.req, w.status), w.storage), [], a.env, 0);
  }
}
