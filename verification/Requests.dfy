/** One-off requests through annotations, and the failure reset that uses them
    (api/v2beta2/annotations.go, internal/action/reset.go, and the part of
    reconcileRelease that records an attempt). */
module Requests {
  import opened Api
  import opened Releases

  /** handleRequest: whether a request must be honoured now. */
  predicate Honoured(requestAt: Option<string>, reconcileAt: Option<string>, lastHandled: string, lastReconcile: string) {
    && requestAt.Some? && reconcileAt.Some? && requestAt.value == reconcileAt.value
    && lastReconcile != reconcileAt.value && lastHandled != requestAt.value
  }

  /** handleRequest: the token remembered afterwards, honoured or not. */
  function Remembered(requestAt: Option<string>, lastHandled: string): string {
    if requestAt.Some? then requestAt.value else lastHandled
  }

  /** handleRequest, which writes through to the remembered token. */
  method HandleRequest(requestAt: Option<string>, reconcileAt: Option<string>, lastHandled: string, lastReconcile: string)
    returns (honoured: bool, remembered: string)
    ensures honoured == Honoured(requestAt, reconcileAt, lastHandled, lastReconcile)
    ensures remembered == Remembered(requestAt, lastHandled)
  {
    var lastHandledRequest := "";
    remembered := lastHandled;
    if requestAt.Some? {
      lastHandledRequest := lastHandled;
      remembered := requestAt.value;
    }
    honoured := false;
    if requestAt.Some? && reconcileAt.Some? && requestAt.value == reconcileAt.value {
      if lastReconcile != reconcileAt.value && lastHandledRequest != requestAt.value {
        honoured := true;
      }
    }
  }

  predicate ForceRequested(req: Request, st: Status) {
    Honoured(req.annotations.forceAt, req.annotations.reconcileAt, st.lastHandledForceAt, st.lastHandledReconcileAt)
  }

  function RememberForce(req: Request, st: Status): Status {
    st.(lastHandledForceAt := Remembered(req.annotations.forceAt, st.lastHandledForceAt))
  }

  predicate ResetRequested(req: Request, st: Status) {
    Honoured(req.annotations.resetAt, req.annotations.reconcileAt, st.lastHandledResetAt, st.lastHandledReconcileAt)
  }

  /** The digest that the values of the last attempt are compared by. */
  function AttemptedValues(st: Status): Digest<Values> {
    if st.lastAttemptedConfigDigest != Unparsable("") then st.lastAttemptedConfigDigest else st.lastAttemptedValuesChecksum
  }

  /** MustResetFailures, in the order of its cases. */
  predicate MustResetFailures(req: Request, st: Status) {
    if st.lastAttemptedGeneration != req.generation then true
    else if st.lastAttemptedRevision != req.chartVersion then true
    else if AttemptedValues(st) != Unparsable("") && !VerifyValues(AttemptedValues(st), req.values) then true
    else ResetRequested(req, st)
  }

  /** Counters are cleared when required, and the attempt is recorded. */
  function Prepare(req: Request, st: Status): Status {
    var reset := MustResetFailures(req, st);
    var st1 := st.(lastHandledResetAt := Remembered(req.annotations.resetAt, st.lastHandledResetAt));
    var st2 := if reset then st1.ClearFailures() else st1;
    st2.(lastAttemptedGeneration := req.generation,
         lastAttemptedRevision := req.chartVersion,
         lastAttemptedRevisionDigest := req.ociDigest,
         lastAttemptedConfigDigest := Digest(req.canonical, req.values),
         lastAttemptedValuesChecksum := Unparsable(""))
  }

  /** What every attempt that is not cut short records in the end: the request to
      reconcile that it met. */
  function Handled(req: Request, st: Status): Status {
    st.(lastHandledReconcileAt := Remembered(req.annotations.reconcileAt, st.lastHandledReconcileAt))
  }

  /** Once the request to reconcile is recorded, neither a force nor a reset request
      that came with it is pending. */
  lemma NothingPendingOnceHandled(req: Request, st: Status)
    ensures !ForceRequested(req, Handled(req, st)) && !ResetRequested(req, Handled(req, st))
    ensures Handled(req, st) == st.(lastHandledReconcileAt := Handled(req, st).lastHandledReconcileAt)
    ensures req.annotations.reconcileAt.None? ==> Handled(req, st) == st
  {
  }

  /** How often a constant request is honoured when it is polled `n` times,
      whatever reconcile annotation and status each poll meets. */
  function TimesHonoured(requestAt: Option<string>, lastHandled: string, polls: seq<(Option<string>, string)>): nat
    decreases |polls|
  {
    if polls == [] then 0 else
      (if Honoured(requestAt, polls[0].0, lastHandled, polls[0].1) then 1 else 0)
      + TimesHonoured(requestAt, Remembered(requestAt, lastHandled), polls[1..])
  }

  /** A request is honoured at most once while its token stays the same, and
      never if the token was the one last remembered. */
  lemma {:induction false} HonouredAtMostOnce(requestAt: Option<string>, lastHandled: string, polls: seq<(Option<string>, string)>)
    ensures TimesHonoured(requestAt, lastHandled, polls) <= 1
    ensures requestAt == Some(lastHandled) ==> TimesHonoured(requestAt, lastHandled, polls) == 0
    decreases |polls|
  {
    if polls != [] {
      HonouredAtMostOnce(requestAt, Remembered(requestAt, lastHandled), polls[1..]);
    }
  }

  /** A request to reset the failures is pending, and is not the one handled last. */
  ghost predicate ResetPending(req: Request, st: Status) {
    && req.annotations.resetAt.Some? && req.annotations.resetAt == req.annotations.reconcileAt
    && st.lastHandledReconcileAt != req.annotations.resetAt.value && st.lastHandledResetAt != req.annotations.resetAt.value
  }

  ghost predicate CountersCleared(st: Status) {
    st.failures == 0 && st.installFailures == 0 && st.upgradeFailures == 0
  }

  ghost predicate SameCounters(st: Status, st': Status) {
    st'.failures == st.failures && st'.installFailures == st.installFailures && st'.upgradeFailures == st.upgradeFailures
  }

  /** After an attempt, whatever happened to the rest of the status in between,
      another attempt clears all counters if the generation, the chart version
      or the values differ, or a reset is requested anew, and leaves all of them
      alone otherwise. */
  lemma SecondAttemptResets(first: Request, second: Request, st: Status, between: Status)
    requires var p := Prepare(first, st);
             && between.lastAttemptedGeneration == p.lastAttemptedGeneration
             && between.lastAttemptedRevision == p.lastAttemptedRevision
             && between.lastAttemptedConfigDigest == p.lastAttemptedConfigDigest
             && between.lastHandledResetAt == p.lastHandledResetAt
    ensures var differs := || second.generation != first.generation || second.chartVersion != first.chartVersion
                           || second.values != first.values;
            if differs || ResetPending(second, between) then CountersCleared(Prepare(second, between))
            else SameCounters(between, Prepare(second, between))
    ensures ResetPending(second, between) ==> second.annotations.resetAt != first.annotations.resetAt
  {
  }

  /** The first attempt after the status of an older controller, which recorded a
      checksum of the values, or none at all. */
  lemma FirstAttemptResets(req: Request, st: Status)
    requires st.lastAttemptedConfigDigest == Unparsable("")
    ensures var sum := st.lastAttemptedValuesChecksum;
            var differs := || req.generation != st.lastAttemptedGeneration || req.chartVersion != st.lastAttemptedRevision
                           || (sum != Unparsable("") && !(sum.Digest? && sum.content == req.values));
            if differs || ResetPending(req, st) then CountersCleared(Prepare(req, st)) else SameCounters(st, Prepare(req, st))
  {
  }

  /** The status records an attempt at this very request. */
  ghost predicate Settled(req: Request, st: Status) {
    && st.lastAttemptedGeneration == req.generation
    && st.lastAttemptedRevision == req.chartVersion
    && st.lastAttemptedRevisionDigest == req.ociDigest
    && st.lastAttemptedConfigDigest == Digest(req.canonical, req.values)
    && st.lastAttemptedValuesChecksum == Unparsable("")
    && (req.annotations.resetAt.Some? ==> st.lastHandledResetAt == req.annotations.resetAt.value)
  }

  /** Preparing an attempt settles the status, and preparing it again changes
      nothing. */
  lemma PrepareSettles(req: Request, st: Status)
    ensures Settled(req, Prepare(req, st))
    ensures Settled(req, st) ==> Prepare(req, st) == st
  {
  }
}
