/** What holds of every run of the loop, for every behaviour of Helm, the
    storage and the cluster: its shape, how its events follow from each other,
    and how invariants extend to sequences of attempts. */
module Runs {
  import opened Api
  import opened Snapshots
  import opened Releases
  import opened Recording
  import opened Requests
  import opened State
  import opened Actions
  import opened AtomicRelease

  /** Nothing interferes with the turn. */
  ghost predicate Calm(t: Turn) {
    && !t.canceled && t.foreign.None? && !t.lastDown && !t.getDown && !t.enqueued && t.patchBefore && t.patchAfter
  }

  // ---------- Shape ----------

  /** Every event but the last ran an action, no two events ran actions of the
      same type or of a type in `previous`, and a remediation is the last. */
  ghost predicate WellShaped(events: seq<Event>, previous: seq<ReconcilerType>) {
    && (forall i | 0 <= i < |events| - 1 :: events[i].ran.Some? && TypeOf(events[i].ran.value) != TypeRemediate)
    && (forall i | 0 <= i < |events| && events[i].ran.Some? :: TypeOf(events[i].ran.value) !in previous)
    && (forall i, j | 0 <= i < j < |events| && events[j].ran.Some? ::
          TypeOf(events[i].ran.value) != TypeOf(events[j].ran.value))
  }

  lemma ShapeCons(e: Event, rest: seq<Event>, previous: seq<ReconcilerType>)
    requires e.ran.Some? && TypeOf(e.ran.value) !in previous && TypeOf(e.ran.value) != TypeRemediate
    requires WellShaped(rest, previous + [TypeOf(e.ran.value)])
    ensures WellShaped([e] + rest, previous)
  {
  }

  lemma {:induction false} LoopShape(req: Request, w: World, previous: seq<ReconcilerType>, env: nat -> Turn, n: nat)
    ensures var o := Reconciling(req, w, previous, env, n);
            WellShaped(o.events, previous) && |o.events| <= Remaining(previous) + 1
    decreases Remaining(previous)
  {
    match Turning(req, w, previous, env(n))
    case Stop(_, _, _) =>
      StopShape(req, w, previous, env(n));
    case Go(e) =>
      GoShape(req, w, previous, env(n));
      var previous' := previous + [TypeOf(e.ran.value)];
      LoopShape(req, e.after, previous', env, n + 1);
      ShapeCons(e, Reconciling(req, e.after, previous', env, n + 1).events, previous);
  }

  lemma StopShape(req: Request, w: World, previous: seq<ReconcilerType>, t: Turn)
    requires Turning(req, w, previous, t).Stop?
    ensures var last := Turning(req, w, previous, t).last;
            last.Some? && last.value.ran.Some? ==> TypeOf(last.value.ran.value) !in previous
  {
  }

  /** The outcome of a reconciliation that stops in its first turn. */
  lemma OneTurn(req: Request, w: World, env: nat -> Turn, l: Event, w': World, result: Result)
    requires Turning(req, w, [], env(0)) == Stop(Some(l), w', result)
    ensures Reconcile(req, w, env) == Outcome([l], w', result)
  {
  }

  /** The outcome of a reconciliation that stops in the turn after the next. */
  lemma TwoTurnsFrom(req: Request, w: World, previous: seq<ReconcilerType>, env: nat -> Turn, n: nat, e: Event, l: Event,
                     w': World, result: Result)
    requires Turning(req, w, previous, env(n)) == Go(e) && e.ran.Some?
    requires Turning(req, e.after, previous + [TypeOf(e.ran.value)], env(n + 1)) == Stop(Some(l), w', result)
    ensures Reconciling(req, w, previous, env, n) == Outcome([e, l], w', result)
  {
    GoShape(req, w, previous, env(n));
    assert Reconciling(req, e.after, previous + [TypeOf(e.ran.value)], env, n + 1) == Outcome([l], w', result);
    assert [e] + [l] == [e, l];
  }

  lemma NothingBefore(t: ReconcilerType)
    ensures [] + [t] == [t]
  {
  }

  lemma ReleaseThenUnlock()
    ensures [TypeRelease] + [TypeOf(Unlock)] == [TypeRelease, TypeUnlock]
  {
  }

  /** A turn that goes on, and what comes of the rest. */
  lemma GoThen(req: Request, w: World, previous: seq<ReconcilerType>, env: nat -> Turn, n: nat, e: Event, a: Action,
               previous': seq<ReconcilerType>, rest: Outcome)
    requires Turning(req, w, previous, env(n)) == Go(e) && e.ran == Some(a) && previous' == previous + [TypeOf(a)]
    requires Reconciling(req, e.after, previous', env, n + 1) == rest
    ensures Reconciling(req, w, previous, env, n) == Outcome([e] + rest.events, rest.world, rest.result)
  {
    GoShape(req, w, previous, env(n));
  }

  /** A reconciliation by its first action and the rest. */
  lemma FirstThen(req: Request, w: World, env: nat -> Turn, e: Event, t: ReconcilerType, rest: Outcome)
    requires Turning(req, w, [], env(0)) == Go(e) && e.ran.Some? && TypeOf(e.ran.value) == t
    requires Reconciling(req, e.after, [t], env, 1) == rest
    ensures Reconcile(req, w, env) == Outcome([e] + rest.events, rest.world, rest.result)
  {
    GoShape(req, w, [], env(0));
    NothingBefore(t);
  }

  /** The outcome of what remains of a reconciliation that stops in its next turn. */
  lemma OneTurnFrom(req: Request, w: World, previous: seq<ReconcilerType>, env: nat -> Turn, n: nat, l: Event, w': World, result: Result)
    requires Turning(req, w, previous, env(n)) == Stop(Some(l), w', result)
    ensures Reconciling(req, w, previous, env, n) == Outcome([l], w', result)
  {
  }

  /** One reconciliation runs at most five actions, never two of one type, and a
      remediation only as the last. */
  lemma ReconcileShape(req: Request, w: World, env: nat -> Turn)
    ensures var o := Reconcile(req, w, env);
            WellShaped(o.events, []) && |o.events| <= 5
  {
    LoopShape(req, w, [], env, 0);
  }

  // ---------- Links ----------

  /** Event `e` is what a turn made of world `w`. */
  ghost predicate Recorded(req: Request, w: World, e: Event) {
    var st := SortedByLookup(req, e.seen.status, e.seen.storage, e.turn.lastDown);
    var d := ActionForState(req, st, e.seen.storage, e.state, e.turn.getDown);
    && e.seen == Seen(w, e.turn)
    && Determine(req, e.seen.status, e.seen.storage, e.turn.lastDown, e.turn.diff) == Some(e.state)
    && e.decided == World(d.status, e.seen.storage) && e.next == d.next
    && (if e.ran.None? then e.after == e.decided
        else e.next == Run(e.ran.value)
             && e.after == Execute(req, e.ran.value, e.decided, e.turn.actionDown, e.turn.helm).world)
  }

  /** Each event is made of the world the one before it left. */
  ghost predicate Linked(req: Request, w: World, events: seq<Event>)
    decreases |events|
  {
    events != [] ==> Recorded(req, w, events[0]) && Linked(req, events[0].after, events[1..])
  }

  /** The status that the events of a run lead to. */
  ghost function Reached(w: World, events: seq<Event>): Status {
    if events == [] then w.status else events[|events| - 1].after.status
  }

  /** The status a run ends with: the last turn may have sorted the history for
      an answer it did not get, or recorded the digests of the spec. */
  ghost predicate EndsWith(req: Request, st: Status, o: Outcome) {
    || o.world.status == st
    || (o.result == Failure(StateError) && o.world.status == st.(history := Sorted(st.history)))
    || (o.result.Done? && o.world.status == ObserveSpec(req, st))
  }

  /** What the part of a turn after its decision makes of the event. */
  ghost predicate Completed(req: Request, e: Event, e': Event) {
    || e' == e
    || (e.next.Run? && e' == e.(ran := Some(e.next.action),
                                after := Execute(req, e.next.action, e.decided, e.turn.actionDown, e.turn.helm).world))
  }

  lemma ProceedCompleted(req: Request, d: Decision, e: Event, previous: seq<ReconcilerType>, t: Turn)
    requires e.turn == t && e.next == d.next && e.after == e.decided && e.ran.None?
    ensures match Proceed(req, d, e, previous, t)
            case Go(e') => Completed(req, e, e')
            case Stop(last, world, result) =>
              last.Some? && Completed(req, e, last.value) && EndsWith(req, last.value.after.status, Outcome([], world, result))
  {
  }

  lemma TurnRecorded(req: Request, w: World, previous: seq<ReconcilerType>, t: Turn)
    ensures match Turning(req, w, previous, t)
            case Go(e) => Recorded(req, w, e) && e.turn == t
            case Stop(last, world, result) =>
              && (last.Some? ==> Recorded(req, w, last.value) && last.value.turn == t)
              && EndsWith(req, if last.Some? then last.value.after.status else w.status, Outcome([], world, result))
  {
    var seen := Seen(w, t);
    var state := Determine(req, seen.status, seen.storage, t.lastDown, t.diff);
    if !t.canceled && state.Some? {
      var (d, e) := Decided(req, seen, state.value, t);
      ProceedCompleted(req, d, e, previous, t);
    }
  }

  lemma LinkedCons(req: Request, w: World, e: Event, rest: seq<Event>)
    requires Recorded(req, w, e) && Linked(req, e.after, rest)
    ensures Linked(req, w, [e] + rest)
  {
  }

  /** The events of a run are linked. */
  lemma {:induction false} RunLinked(req: Request, w: World, previous: seq<ReconcilerType>, env: nat -> Turn, n: nat)
    ensures Linked(req, w, Reconciling(req, w, previous, env, n).events)
    decreases Remaining(previous)
  {
    TurnRecorded(req, w, previous, env(n));
    match Turning(req, w, previous, env(n))
    case Stop(_, _, _) =>
    case Go(e) =>
      GoShape(req, w, previous, env(n));
      var previous' := previous + [TypeOf(e.ran.value)];
      RunLinked(req, e.after, previous', env, n + 1);
      LinkedCons(req, w, e, Reconciling(req, e.after, previous', env, n + 1).events);
  }

  /** The world that the events of a run lead to. */
  ghost function ReachedWorld(w: World, events: seq<Event>): World {
    if events == [] then w else events[|events| - 1].after
  }

  lemma ReachedCons(w: World, e: Event, rest: seq<Event>)
    ensures ReachedWorld(w, [e] + rest) == ReachedWorld(e.after, rest)
  {
  }

  lemma PrefixCons(events: seq<Event>, n: nat)
    requires 0 < n <= |events|
    ensures events[..n] == [events[0]] + events[1..][..n - 1]
  {
  }

  lemma PrefixSnoc(events: seq<Event>, n: nat)
    requires 0 < n <= |events|
    ensures events[n - 1] in events[..n] && forall e | e in events[..n - 1] :: e in events[..n]
  {
    assert events[..n] == events[..n - 1] + [events[n - 1]];
  }

  /** Each event is made of the world that the events before it lead to. */
  lemma {:induction false} LinkedAfter(req: Request, w: World, events: seq<Event>, i: nat)
    requires Linked(req, w, events) && i < |events|
    ensures Recorded(req, ReachedWorld(w, events[..i]), events[i])
    decreases i
  {
    if i > 0 {
      LinkedAfter(req, events[0].after, events[1..], i - 1);
      PrefixCons(events, i);
      ReachedCons(w, events[0], events[1..][..i - 1]);
    }
  }

  ghost predicate Solitary(events: seq<Event>) {
    forall e | e in events :: e.turn.foreign.None?
  }

  lemma TurnSolitary(req: Request, w: World, previous: seq<ReconcilerType>, t: Turn)
    requires t.foreign.None?
    ensures match Turning(req, w, previous, t)
            case Go(e) => e.turn.foreign.None?
            case Stop(last, _, _) => Solitary(if last.Some? then [last.value] else [])
  {
    var seen := Seen(w, t);
    var state := Determine(req, seen.status, seen.storage, t.lastDown, t.diff);
    if !t.canceled && state.Some? {
      var (d, e) := Decided(req, seen, state.value, t);
      ProceedCompleted(req, d, e, previous, t);
    }
  }

  lemma SolitaryCons(e: Event, rest: seq<Event>)
    requires e.turn.foreign.None? && Solitary(rest)
    ensures Solitary([e] + rest)
  {
  }

  /** Where no turn meets a foreign writer, no event does. */
  lemma {:induction false} RunSolitary(req: Request, w: World, previous: seq<ReconcilerType>, env: nat -> Turn, n: nat)
    requires forall i :: env(i).foreign.None?
    ensures Solitary(Reconciling(req, w, previous, env, n).events)
    decreases Remaining(previous)
  {
    TurnSolitary(req, w, previous, env(n));
    match Turning(req, w, previous, env(n))
    case Stop(_, _, _) =>
    case Go(e) =>
      GoShape(req, w, previous, env(n));
      var previous' := previous + [TypeOf(e.ran.value)];
      RunSolitary(req, e.after, previous', env, n + 1);
      SolitaryCons(e, Reconciling(req, e.after, previous', env, n + 1).events);
  }

  lemma EndsCons(req: Request, w: World, e: Event, rest: Outcome)
    requires EndsWith(req, Reached(e.after, rest.events), rest)
    ensures EndsWith(req, Reached(w, [e] + rest.events), Outcome([e] + rest.events, rest.world, rest.result))
  {
  }

  /** The events of a run lead to the status the run ends with. */
  lemma {:induction false} RunEnds(req: Request, w: World, previous: seq<ReconcilerType>, env: nat -> Turn, n: nat)
    ensures var o := Reconciling(req, w, previous, env, n);
            EndsWith(req, Reached(w, o.events), o)
    decreases Remaining(previous)
  {
    TurnRecorded(req, w, previous, env(n));
    match Turning(req, w, previous, env(n))
    case Stop(_, _, _) =>
    case Go(e) =>
      GoShape(req, w, previous, env(n));
      var previous' := previous + [TypeOf(e.ran.value)];
      RunEnds(req, e.after, previous', env, n + 1);
      EndsCons(req, w, e, Reconciling(req, e.after, previous', env, n + 1));
  }

  // ---------- Frames ----------

  /** A decision changes the history and the remembered force token only. */
  lemma DecisionFrame(req: Request, st: Status, sto: Storage, state: ReleaseStatus, down: bool)
    ensures var d := ActionForState(req, st, sto, state, down);
            d.status == RememberForce(req, st).(history := d.status.history)
  {
  }

  /** Outside the history, an action changes the counters, the last attempted
      action and the observed digests only. */
  ghost predicate Framed(st: Status, st': Status) {
    st' == st.(history := st'.history, failures := st'.failures, installFailures := st'.installFailures,
               upgradeFailures := st'.upgradeFailures, lastAction := st'.lastAction,
               postRenderersDigest := st'.postRenderersDigest, commonMetadataDigest := st'.commonMetadataDigest)
  }

  lemma FinishFrame(req: Request, st: Status, sto: Storage, r: Remediation, retry: bool, helm: HelmRun)
    ensures Framed(st, FinishRelease(req, st, sto, r, retry, helm).world.status)
  {
  }

  lemma RemediationFrame(req: Request, w: World, helm: HelmRun)
    ensures Framed(w.status, RunTest(req, w, helm).world.status)
    ensures Framed(w.status, RunRollback(req, w, helm).world.status)
    ensures Framed(w.status, RunUninstallRemediation(req, w, helm).world.status)
  {
  }

  lemma ExecuteFrame(req: Request, a: Action, w: World, down: bool, helm: HelmRun)
    ensures Framed(w.status, Execute(req, a, w, down, helm).world.status)
  {
    var obs, oci := Observe(helm.writes), w.status.lastAttemptedRevisionDigest;
    match a
    case Install =>
      FinishFrame(req, w.status.(lastAction := ActionInstall, history := Record(req.canonical, obs, [], oci, ActionInstall)),
                  Apply(w.storage, helm.writes), req.spec.installRemediation,
                  MustRetry(req.spec.installStrategy, req.defaultToRetry), helm);
    case Upgrade =>
      FinishFrame(req, w.status.(lastAction := ActionUpgrade, history := Record(req.canonical, obs, w.status.history, oci, ActionUpgrade)),
                  Apply(w.storage, helm.writes), req.spec.upgradeRemediation,
                  MustRetry(req.spec.upgradeStrategy, req.defaultToRetry), helm);
    case Unlock =>
    case CorrectDrift =>
    case _ => RemediationFrame(req, w, helm);
  }

  // ---------- Invariants of the status ----------

  /** What a turn keeps, through its decision and its action. */
  ghost predicate EventKeeps(req: Request, p: Status -> bool) {
    forall w, e | Recorded(req, w, e) && p(w.status) :: p(e.decided.status) && p(e.after.status)
  }

  ghost predicate HoldsThroughout(p: Status -> bool, events: seq<Event>) {
    forall i | 0 <= i < |events| :: p(events[i].decided.status) && p(events[i].after.status)
  }

  lemma {:induction false} KeptByEvents(req: Request, p: Status -> bool, w: World, events: seq<Event>)
    requires EventKeeps(req, p) && p(w.status) && Linked(req, w, events)
    ensures HoldsThroughout(p, events) && p(Reached(w, events))
    decreases |events|
  {
    if events != [] {
      assert Recorded(req, w, events[0]);
      KeptByEvents(req, p, events[0].after, events[1..]);
      assert forall i | 1 <= i < |events| :: events[i] == events[1..][i - 1];
    }
  }

  // ---------- Sequences of attempts ----------

  /** Where a crash leaves what an attempt had patched so far: while the action of
      an event runs, after the patch that precedes it, or once that action is
      done, after the patch that follows it. A crash before the first patch
      leaves the attempt as if it had not been made. */
  datatype Crash = During(at: nat) | Following(at: nat)

  /** One attempt at reconciling. What a crash leaves of the storage, if it is not
      what the model says, is up to the next attempt. */
  datatype Attempt = Attempt(req: Request, env: nat -> Turn, crash: Option<Crash>)

  function Attempted(w: World, a: Attempt): Outcome {
    Reconcile(a.req, World(Prepare(a.req, w.status), w.storage), a.env)
  }

  /** The attempt crashes at an action that it ran. */
  predicate Crashes(w: World, a: Attempt) {
    var events := Attempted(w, a).events;
    a.crash.Some? && a.crash.value.at < |events| && events[a.crash.value.at].ran.Some?
  }

  /** The attempt crashes while it runs an action. */
  predicate CutsIn(w: World, a: Attempt) {
    Crashes(w, a) && a.crash.value.During?
  }

  /** The events of an attempt whose actions were completed. */
  function Lived(w: World, a: Attempt): seq<Event> {
    var events := Attempted(w, a).events;
    if CutsIn(w, a) then events[..a.crash.value.at]
    else if Crashes(w, a) then events[..a.crash.value.at + 1]
    else events
  }

  function Survives(w: World, a: Attempt): World {
    var o := Attempted(w, a);
    if CutsIn(w, a) then o.events[a.crash.value.at].decided
    else if Crashes(w, a) then o.events[a.crash.value.at].after
    else World(Handled(a.req, o.world.status), o.world.storage)
  }

  function After(w: World, attempts: seq<Attempt>): World {
    if attempts == [] then w else Survives(After(w, attempts[..|attempts| - 1]), attempts[|attempts| - 1])
  }

  /** What every attempt keeps. */
  ghost predicate AttemptKeeps(req: Request, p: Status -> bool) {
    && EventKeeps(req, p)
    && EndKeeps(req, p)
    && forall st | p(st) :: p(Prepare(req, st))
  }

  ghost predicate EndKeeps(req: Request, p: Status -> bool) {
    forall st | p(st) :: p(Handled(req, st)) && p(ObserveSpec(req, st)) && p(st.(history := Sorted(st.history)))
  }

  lemma KeptThroughout(a: Attempt, p: Status -> bool, w: World)
    requires EventKeeps(a.req, p) && p(Prepare(a.req, w.status)) && EndKeeps(a.req, p)
    ensures HoldsThroughout(p, Attempted(w, a).events) && p(Attempted(w, a).world.status)
  {
    var w' := World(Prepare(a.req, w.status), w.storage);
    RunLinked(a.req, w', [], a.env, 0);
    RunEnds(a.req, w', [], a.env, 0);
    KeptByEvents(a.req, p, w', Attempted(w, a).events);
  }

  /** What the events of an attempt keep holds of what survives it. */
  lemma KeptByRun(a: Attempt, p: Status -> bool, w: World)
    requires EventKeeps(a.req, p) && p(Prepare(a.req, w.status)) && EndKeeps(a.req, p)
    ensures p(Survives(w, a).status)
  {
    KeptThroughout(a, p, w);
  }

  lemma KeptByAttempt(p: Status -> bool, w: World, a: Attempt)
    requires AttemptKeeps(a.req, p) && p(w.status)
    ensures p(Survives(w, a).status)
  {
    KeptByRun(a, p, w);
  }

  lemma {:induction false} KeptByAttempts(p: Status -> bool, w: World, attempts: seq<Attempt>)
    requires p(w.status) && forall a | a in attempts :: AttemptKeeps(a.req, p)
    ensures p(After(w, attempts).status)
  {
    if attempts != [] {
      KeptByAttempts(p, w, attempts[..|attempts| - 1]);
      KeptByAttempt(p, After(w, attempts[..|attempts| - 1]), attempts[|attempts| - 1]);
    }
  }

  /** Outside the history, an event changes what a decision or an action may. */
  lemma EventFrame(req: Request, w: World, e: Event)
    requires Recorded(req, w, e)
    ensures e.decided.status == RememberForce(req, w.status).(history := e.decided.status.history)
    ensures Framed(e.decided.status, e.after.status)
  {
    DecisionFrame(req, SortedByLookup(req, e.seen.status, e.seen.storage, e.turn.lastDown), e.seen.storage, e.state, e.turn.getDown);
    if e.ran.Some? {
      ExecuteFrame(req, e.ran.value, e.decided, e.turn.actionDown, e.turn.helm);
    }
  }

  /** An attempt, however it ends, is what the next one is compared with: that one
      clears all counters if it is for another generation, chart version or
      values, or a reset is requested anew, and leaves them alone otherwise. */
  lemma AttemptResets(w: World, a: Attempt, second: Request)
    ensures var st, first := Survives(w, a).status, a.req;
            var differs := || second.generation != first.generation || second.chartVersion != first.chartVersion
                           || second.values != first.values;
            if differs || ResetPending(second, st) then CountersCleared(Prepare(second, st)) else SameCounters(st, Prepare(second, st))
  {
    AttemptSettled(w, a);
  }

  /** A run leaves the record of its attempt alone. */
  lemma AttemptSettled(w: World, a: Attempt)
    ensures Settled(a.req, Survives(w, a).status)
  {
    var p := (st: Status) => Settled(a.req, st);
    forall w, e | Recorded(a.req, w, e) && p(w.status) ensures p(e.decided.status) && p(e.after.status) {
      EventFrame(a.req, w, e);
    }
    PrepareSettles(a.req, w.status);
    KeptByRun(a, p, w);
  }
}
