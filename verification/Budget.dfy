/** The retry budget: exactly when a release action may start beyond it, and
    that nothing else exceeds it. */
module Budget {
  import opened Api
  import opened Snapshots
  import opened Releases
  import opened Requests
  import opened State
  import opened Actions
  import opened AtomicRelease
  import opened Runs

  /** A release action starts although its own retries are exhausted. */
  ghost predicate Overspends(req: Request, st: Status, next: Next) {
    || (next == Run(Install) && req.spec.installRemediation.RetriesExhausted(st))
    || (next == Run(Upgrade) && req.spec.upgradeRemediation.RetriesExhausted(st))
  }

  /** The rollback target is gone or is not the release that was recorded. */
  ghost predicate UnverifiableTarget(req: Request, st: Status, sto: Storage, down: bool) {
    VerifySnapshot(sto, RollbackTarget(req, st), down) in {Disappeared, NotObserved, BadDigest}
  }

  /** The ways round the retry budget of a failed release. */
  ghost predicate FailedEscape(req: Request, st: Status, sto: Storage, down: bool) {
    var active := ActiveRemediation(req, st);
    || ActiveRetry(req, st)
    || active.None?
    || active.value.FailureCount(st) <= 0
    || ForceRequested(req, st)
    || (active.value.GetStrategy() == RollbackStrategy && active.value.MustRemediateLastFailure()
        && UnverifiableTarget(req, st, sto, down))
  }

  /** The ways round the retry budget. */
  ghost predicate Escape(req: Request, st: Status, sto: Storage, state: ReleaseStatus, down: bool) {
    if state.Absent? then req.spec.installRemediation.RetriesExhausted(st) && ForceRequested(req, st)
    else
      && req.spec.upgradeRemediation.RetriesExhausted(st)
      && match state
         case Unmanaged => true
         case InSync => ForceRequested(req, st)
         case OutOfSync => ForceRequested(req, st)
         case Failed => FailedEscape(req, st, sto, down)
         case _ => false
  }

  lemma RemediationEscapes(req: Request, st: Status, sto: Storage, r: Remediation, down: bool)
    ensures var ignore := r.MustIgnoreTestFailures(req.spec.testIgnoreFailures);
            DecideRemediation(req, st, sto, r, down).next == Run(Upgrade) <==>
              r.GetStrategy() == RollbackStrategy
              && VerifySnapshot(sto, Previous(st.history, ignore), down) in {Disappeared, NotObserved, BadDigest}
  {
    TruncateKeepsPrevious(st.history, r.MustIgnoreTestFailures(req.spec.testIgnoreFailures));
  }

  lemma FailedEscapesExactly(req: Request, st0: Status, sto: Storage, down: bool)
    requires req.spec.upgradeRemediation.RetriesExhausted(st0)
    ensures var d := DecideFailed(req, RememberForce(req, st0), sto, ForceRequested(req, st0), down);
            d.next == Run(Upgrade) <==> FailedEscape(req, st0, sto, down)
  {
    var active := ActiveRemediation(req, st0);
    if active.Some? {
      RemediationEscapes(req, RememberForce(req, st0), sto, active.value, down);
    }
  }

  lemma OtherEscapesExactly(req: Request, st: Status, sto: Storage, state: ReleaseStatus, down: bool)
    requires !state.Failed?
    ensures var d := ActionForState(req, st, sto, state, down);
            Overspends(req, d.status, d.next) <==> Escape(req, st, sto, state, down)
  {
  }

  /** A release action starts beyond its retries exactly by a force request, on
      an unmanaged release, or on a failed release with an active retry, no
      active remediation, a zero active counter or a rollback target that
      cannot be verified. */
  lemma EscapesExactly(req: Request, st: Status, sto: Storage, state: ReleaseStatus, down: bool)
    ensures var d := ActionForState(req, st, sto, state, down);
            Overspends(req, d.status, d.next) <==> Escape(req, st, sto, state, down)
  {
    if !state.Failed? {
      OtherEscapesExactly(req, st, sto, state, down);
    } else {
      DecisionFrame(req, st, sto, state, down);
      FailedNeverInstalls(req, RememberForce(req, st), sto, ForceRequested(req, st), down);
      if req.spec.upgradeRemediation.RetriesExhausted(st) {
        FailedEscapesExactly(req, st, sto, down);
      }
    }
  }

  lemma FailedNeverInstalls(req: Request, st: Status, sto: Storage, forced: bool, down: bool)
    ensures DecideFailed(req, st, sto, forced, down).next != Run(Install)
  {
  }

  // ---------- Runs without escapes ----------

  ghost predicate WithinBudget(req: Request, st: Status) {
    && (req.spec.installRemediation.retries >= 0 ==> st.installFailures <= req.spec.installRemediation.retries + 1)
    && (req.spec.upgradeRemediation.retries >= 0 ==> st.upgradeFailures <= req.spec.upgradeRemediation.retries + 1)
  }

  /** A test that counts its failure is run although the retries it counts against
      are exhausted: the branch for an untested release does not look at them. */
  ghost predicate TestsBeyond(req: Request, st: Status, state: ReleaseStatus) {
    var active := ActiveRemediation(req, st);
    && state.Untested? && active.Some? && active.value.RetriesExhausted(st)
    && !active.value.MustIgnoreTestFailures(req.spec.testIgnoreFailures)
  }

  /** The event took one of the ways round the retry budget. */
  ghost predicate Escaped(req: Request, e: Event) {
    var st := SortedByLookup(req, e.seen.status, e.seen.storage, e.turn.lastDown);
    Escape(req, st, e.seen.storage, e.state, e.turn.getDown) || TestsBeyond(req, st, e.state)
  }

  lemma OnlyUntestedIsTested(req: Request, st: Status, sto: Storage, state: ReleaseStatus, down: bool)
    requires ActionForState(req, st, sto, state, down).next == Run(Test)
    ensures state.Untested?
  {
  }

  lemma ExecuteWithin(req: Request, a: Action, w: World, down: bool, helm: HelmRun)
    requires WithinBudget(req, w.status) && !Overspends(req, w.status, Run(a))
    requires a.Test? ==> !TestsBeyond(req, w.status, Untested)
    ensures WithinBudget(req, Execute(req, a, w, down, helm).world.status)
  {
  }

  lemma EventWithin(req: Request, w: World, e: Event)
    requires Recorded(req, w, e) && WithinBudget(req, w.status) && !Escaped(req, e)
    ensures WithinBudget(req, e.decided.status) && WithinBudget(req, e.after.status)
  {
    var st := SortedByLookup(req, e.seen.status, e.seen.storage, e.turn.lastDown);
    DecisionFrame(req, st, e.seen.storage, e.state, e.turn.getDown);
    EscapesExactly(req, st, e.seen.storage, e.state, e.turn.getDown);
    if e.ran.Some? {
      if e.ran.value.Test? {
        OnlyUntestedIsTested(req, st, e.seen.storage, e.state, e.turn.getDown);
      }
      ExecuteWithin(req, e.ran.value, e.decided, e.turn.actionDown, e.turn.helm);
    }
  }

  /** None of the events took a way round the retry budget. */
  ghost predicate NoneEscaped(req: Request, events: seq<Event>)
    decreases |events|
  {
    events != [] ==> !Escaped(req, events[0]) && NoneEscaped(req, events[1..])
  }

  lemma {:induction false} EventsWithin(req: Request, w: World, events: seq<Event>, n: nat)
    requires Linked(req, w, events) && n <= |events|
    requires WithinBudget(req, w.status) && NoneEscaped(req, events)
    ensures WithinBudget(req, ReachedWorld(w, events[..n]).status)
    decreases n
  {
    if n > 0 {
      EventWithin(req, w, events[0]);
      EventsWithin(req, events[0].after, events[1..], n - 1);
      PrefixCons(events, n);
      ReachedCons(w, events[0], events[1..][..n - 1]);
    }
  }

  /** The retries of a request depend on its generation only. */
  ghost predicate Limited(attempts: seq<Attempt>) {
    forall a, b | a in attempts && b in attempts && a.req.generation == b.req.generation ::
      && a.req.spec.installRemediation.retries == b.req.spec.installRemediation.retries
      && a.req.spec.upgradeRemediation.retries == b.req.spec.upgradeRemediation.retries
  }

  /** No event of the run takes a way round the retry budget. */
  ghost predicate NoEscapes(w: World, attempts: seq<Attempt>) {
    attempts != [] ==>
      var init, a := attempts[..|attempts| - 1], attempts[|attempts| - 1];
      NoEscapes(w, init) && NoneEscaped(a.req, Attempted(After(w, init), a).events)
  }

  /** The counters are within the budget of the generation last attempted. */
  ghost predicate AttemptedWithin(st: Status, attempts: seq<Attempt>) {
    forall a | a in attempts && a.req.generation == st.lastAttemptedGeneration :: WithinBudget(a.req, st)
  }

  /** A new generation starts with the counters cleared. */
  lemma PrepareWithin(a: Attempt, st: Status)
    requires a.req.generation == st.lastAttemptedGeneration ==> WithinBudget(a.req, st)
    ensures WithinBudget(a.req, Prepare(a.req, st))
  {
  }

  lemma CompletedWithin(w: World, a: Attempt)
    requires WithinBudget(a.req, Prepare(a.req, w.status))
    requires NoneEscaped(a.req, Attempted(w, a).events)
    ensures WithinBudget(a.req, Attempted(w, a).world.status)
  {
    var w', events := World(Prepare(a.req, w.status), w.storage), Attempted(w, a).events;
    RunLinked(a.req, w', [], a.env, 0);
    RunEnds(a.req, w', [], a.env, 0);
    EventsWithin(a.req, w', events, |events|);
    assert events[..|events|] == events;
  }

  lemma EventsOfAttemptWithin(w: World, a: Attempt, i: nat)
    requires WithinBudget(a.req, Prepare(a.req, w.status)) && i < |Attempted(w, a).events|
    requires NoneEscaped(a.req, Attempted(w, a).events)
    ensures var e := Attempted(w, a).events[i];
            WithinBudget(a.req, e.decided.status) && WithinBudget(a.req, e.after.status)
  {
    var w', events := World(Prepare(a.req, w.status), w.storage), Attempted(w, a).events;
    RunLinked(a.req, w', [], a.env, 0);
    EventsWithin(a.req, w', events, i);
    EventsWithin(a.req, w', events, i + 1);
    LinkedAfter(a.req, w', events, i);
    EventFrame(a.req, ReachedWorld(w', events[..i]), events[i]);
  }

  lemma AttemptWithin(w: World, a: Attempt)
    requires a.req.generation == w.status.lastAttemptedGeneration ==> WithinBudget(a.req, w.status)
    requires NoneEscaped(a.req, Attempted(w, a).events)
    ensures WithinBudget(a.req, Survives(w, a).status)
  {
    PrepareWithin(a, w.status);
    if Crashes(w, a) {
      EventsOfAttemptWithin(w, a, a.crash.value.at);
    } else {
      CompletedWithin(w, a);
    }
  }

  lemma {:induction false} BudgetKeptFrom(w: World, attempts: seq<Attempt>, all: seq<Attempt>)
    requires Limited(all) && (forall a | a in attempts :: a in all) && NoEscapes(w, attempts)
    requires AttemptedWithin(w.status, all)
    ensures AttemptedWithin(After(w, attempts).status, all)
  {
    if attempts != [] {
      var init, a := attempts[..|attempts| - 1], attempts[|attempts| - 1];
      BudgetKeptFrom(w, init, all);
      assert a in attempts;
      AttemptWithin(After(w, init), a);
      AttemptSettled(After(w, init), a);
    }
  }

  /** Every run from an empty status that takes no escape keeps each counter at most
      one above the retries last asked for, through any changes of the requests,
      whatever Helm, the storage and other writers do and wherever the
      controller crashes. */
  lemma BudgetKept(sto: Storage, attempts: seq<Attempt>)
    requires Limited(attempts) && NoEscapes(World(EMPTY_STATUS, sto), attempts) && attempts != []
    ensures WithinBudget(attempts[|attempts| - 1].req, After(World(EMPTY_STATUS, sto), attempts).status)
  {
    var w, init, a := World(EMPTY_STATUS, sto), attempts[..|attempts| - 1], attempts[|attempts| - 1];
    BudgetKeptFrom(w, attempts, attempts);
    AttemptSettled(After(w, init), a);
  }
}
