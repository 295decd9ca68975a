/** The deduplicating ring buffer for Helm log lines (internal/action/log.go). */
module LogRing {
  import opened Api

  /** A retained line: when it first came, when it last came if it was repeated,
      and how many repetitions were dropped. */
  datatype LogLine = LogLine(ts: int, lastTs: Option<int>, msg: string, count: nat)

  datatype Entry = Entry(msg: string, at: int)

  /** One more entry after a list of runs. */
  function Extend(runs: seq<LogLine>, e: Entry): seq<LogLine> {
    if runs != [] && runs[|runs| - 1].msg == e.msg then
      var last := runs[|runs| - 1];
      runs[|runs| - 1 := last.(count := last.count + 1, lastTs := Some(e.at))]
    else runs + [LogLine(e.at, None, e.msg, 0)]
  }

  /** The runs of equal messages in a log. */
  function Runs(log: seq<Entry>): seq<LogLine> {
    if log == [] then [] else Extend(Runs(log[..|log| - 1]), log[|log| - 1])
  }

  // ---------- Runs is the run-length encoding ----------

  function Messages(log: seq<Entry>): seq<string> {
    if log == [] then [] else Messages(log[..|log| - 1]) + [log[|log| - 1].msg]
  }

  function Repeat(msg: string, n: nat): seq<string> {
    if n == 0 then [] else Repeat(msg, n - 1) + [msg]
  }

  /** The messages that a list of runs stands for. */
  function Expand(runs: seq<LogLine>): seq<string> {
    if runs == [] then []
    else Expand(runs[..|runs| - 1]) + Repeat(runs[|runs| - 1].msg, runs[|runs| - 1].count + 1)
  }

  ghost predicate Alternating(runs: seq<LogLine>) {
    forall i | 0 <= i < |runs| - 1 :: runs[i].msg != runs[i + 1].msg
  }

  lemma ExtendExpands(runs: seq<LogLine>, e: Entry)
    requires Alternating(runs)
    ensures Expand(Extend(runs, e)) == Expand(runs) + [e.msg]
    ensures Alternating(Extend(runs, e))
  {
    var runs' := Extend(runs, e);
    if runs != [] && runs[|runs| - 1].msg == e.msg {
      var last := runs[|runs| - 1];
      assert runs'[..|runs'| - 1] == runs[..|runs| - 1];
      assert Repeat(e.msg, last.count + 2) == Repeat(e.msg, last.count + 1) + [e.msg];
    } else {
      assert runs'[..|runs'| - 1] == runs;
      assert Repeat(e.msg, 1) == [e.msg];
    }
  }

  /** Expanding the runs gives the messages back, and neighbouring runs differ. */
  lemma {:induction false} RunsExpand(log: seq<Entry>)
    ensures Expand(Runs(log)) == Messages(log) && Alternating(Runs(log))
  {
    if log != [] {
      var init, e := log[..|log| - 1], log[|log| - 1];
      RunsExpand(init);
      ExtendExpands(Runs(init), e);
      assert Messages(log) == Messages(init) + [e.msg];
    }
  }

  lemma {:induction false} ExpandLength(runs: seq<LogLine>)
    ensures |Expand(runs)| >= |runs|
    ensures runs != [] ==> Expand(runs) != [] && Expand(runs)[|Expand(runs)| - 1] == runs[|runs| - 1].msg
  {
    if runs != [] {
      ExpandLength(runs[..|runs| - 1]);
    }
  }

  /** The runs without the last message. */
  function Peel(runs: seq<LogLine>): seq<LogLine>
    requires runs != []
  {
    var last := runs[|runs| - 1];
    if last.count > 0 then runs[|runs| - 1 := last.(count := last.count - 1)] else runs[..|runs| - 1]
  }

  lemma {:induction false} PeelExpands(runs: seq<LogLine>)
    requires runs != []
    ensures Expand(runs) == Expand(Peel(runs)) + [runs[|runs| - 1].msg]
  {
    var last, peeled, init := runs[|runs| - 1], Peel(runs), runs[..|runs| - 1];
    if last.count > 0 {
      assert peeled[..|peeled| - 1] == init;
      assert Expand(runs) == Expand(init) + (Repeat(last.msg, last.count) + [last.msg]);
    }
  }

  lemma PeelAlternates(runs: seq<LogLine>)
    requires runs != [] && Alternating(runs)
    ensures Alternating(Peel(runs))
  {
  }

  ghost predicate SameRuns(a: seq<LogLine>, b: seq<LogLine>) {
    |a| == |b| && forall i | 0 <= i < |a| :: a[i].msg == b[i].msg && a[i].count == b[i].count
  }

  lemma PeelSame(a: seq<LogLine>, b: seq<LogLine>)
    requires a != [] && b != [] && Alternating(a) && Alternating(b)
    requires a[|a| - 1].msg == b[|b| - 1].msg && SameRuns(Peel(a), Peel(b))
    ensures SameRuns(a, b)
  {
    var pa, pb := Peel(a), Peel(b);
    assert forall i | 0 <= i < |a| - 1 :: pa[i] == a[i];
    assert forall i | 0 <= i < |b| - 1 :: pb[i] == b[i];
    if |pa| > 0 {
      assert pa[|pa| - 1].msg == pb[|pb| - 1].msg;
    }
  }

  /** Any two alternating lists of runs that expand to the same messages have the
      same messages and counts: there is only one run-length encoding. */
  lemma {:induction false} EncodingUnique(a: seq<LogLine>, b: seq<LogLine>)
    requires Alternating(a) && Alternating(b) && Expand(a) == Expand(b)
    ensures SameRuns(a, b)
    decreases |Expand(a)|
  {
    ExpandLength(a);
    ExpandLength(b);
    if a != [] && b != [] {
      PeelExpands(a);
      PeelExpands(b);
      PeelAlternates(a);
      PeelAlternates(b);
      assert Expand(Peel(a)) == Expand(a)[..|Expand(a)| - 1] == Expand(Peel(b));
      EncodingUnique(Peel(a), Peel(b));
      PeelSame(a, b);
    }
  }

  /** The times of a list of runs are those of the log: of the first entry of each
      run, and of the last one if there are several. */
  ghost predicate Timed(log: seq<Entry>, runs: seq<LogLine>)
    decreases |runs|
  {
    if runs == [] then log == []
    else
      var r := runs[|runs| - 1];
      var first := |log| - r.count - 1;
      && 0 <= first && log[first].at == r.ts
      && r.lastTs == (if r.count == 0 then None else Some(log[|log| - 1].at))
      && Timed(log[..first], runs[..|runs| - 1])
  }

  lemma {:induction false} RunsTimed(log: seq<Entry>)
    ensures Timed(log, Runs(log))
  {
    if log != [] {
      var init, e := log[..|log| - 1], log[|log| - 1];
      RunsTimed(init);
      var runs, runs' := Runs(init), Runs(log);
      if runs != [] && runs[|runs| - 1].msg == e.msg {
        var first := |init| - runs[|runs| - 1].count - 1;
        assert runs'[..|runs'| - 1] == runs[..|runs| - 1] && log[..first] == init[..first];
      } else {
        assert runs'[..|runs'| - 1] == runs;
      }
    }
  }

  // ---------- The ring ----------

  /** The last `n` runs, after empty slots if there are fewer. */
  function Window(runs: seq<LogLine>, n: nat): seq<Option<LogLine>> {
    seq(n, k requires 0 <= k < n => if |runs| - n + k < 0 then None else Some(runs[|runs| - n + k]))
  }

  lemma WindowExtends(runs: seq<LogLine>, e: Entry, n: nat)
    requires n >= 1
    ensures var w, w' := Window(runs, n), Window(Extend(runs, e), n);
            if runs != [] && runs[|runs| - 1].msg == e.msg then
              w' == w[n - 1 := Some(Extend(runs, e)[|runs| - 1])]
            else w' == w[1..] + [Some(LogLine(e.at, None, e.msg, 0))]
  {
  }

  ghost predicate BlankSlots(slots: seq<Option<LogLine>>, k: nat)
    requires k <= |slots|
  {
    forall j | 0 <= j < k :: slots[j].Some? ==> slots[j].value.msg == ""
  }

  /** The last `n` runs are all of the empty message. */
  ghost predicate BlankRuns(runs: seq<LogLine>, n: nat) {
    forall i | 0 <= i < |runs| && i >= |runs| - n :: runs[i].msg == ""
  }

  lemma WindowRuns(runs: seq<LogLine>, n: nat)
    ensures BlankSlots(Window(runs, n), n) <==> BlankRuns(runs, n)
  {
    var w := Window(runs, n);
    assert forall i | 0 <= i < |runs| && i >= |runs| - n :: w[i - |runs| + n] == Some(runs[i]);
  }

  /** A ring of slots in the order of traversal from slot `cur`. */
  function Rotated<T>(s: seq<T>, cur: nat): seq<T>
    requires cur <= |s|
  {
    s[cur..] + s[..cur]
  }

  /** The slot before `cur` is the last one of the traversal. */
  lemma RotatedLast<T>(s: seq<T>, cur: nat, prev: nat, x: T)
    requires cur < |s| && prev == if cur == 0 then |s| - 1 else cur - 1
    ensures Rotated(s, cur)[|s| - 1] == s[prev]
    ensures Rotated(s[prev := x], cur) == Rotated(s, cur)[|s| - 1 := x]
  {
  }

  /** Overwriting slot `cur` and moving on drops the first slot of the traversal
      and adds a last one. */
  lemma RotatedNext<T>(s: seq<T>, cur: nat, next: nat, x: T)
    requires cur < |s| && next == if cur + 1 == |s| then 0 else cur + 1
    ensures Rotated(s[cur := x], next) == Rotated(s, cur)[1..] + [x]
  {
  }

  lemma RunsOfMore(log: seq<Entry>, e: Entry)
    ensures Runs(log + [e]) == Extend(Runs(log), e)
  {
    assert (log + [e])[..|log|] == log;
  }

  /** A repeated message is counted in the slot before `cur`. */
  lemma RepeatedInRing(s: seq<Option<LogLine>>, cur: nat, prev: nat, runs: seq<LogLine>, e: Entry)
    requires cur < |s| && prev == (if cur == 0 then |s| - 1 else cur - 1) && Rotated(s, cur) == Window(runs, |s|)
    requires s[prev].Some? && s[prev].value.msg == e.msg
    ensures var line := s[prev].value;
            Rotated(s[prev := Some(line.(count := line.count + 1, lastTs := Some(e.at)))], cur) == Window(Extend(runs, e), |s|)
  {
    var line := s[prev].value;
    RotatedLast(s, cur, prev, Some(line.(count := line.count + 1, lastTs := Some(e.at))));
    WindowExtends(runs, e, |s|);
    assert Window(runs, |s|)[|s| - 1] == Some(line);
  }

  /** Any other message takes slot `cur`. */
  lemma NewInRing(s: seq<Option<LogLine>>, cur: nat, prev: nat, next: nat, runs: seq<LogLine>, e: Entry)
    requires cur < |s| && prev == (if cur == 0 then |s| - 1 else cur - 1) && next == (if cur + 1 == |s| then 0 else cur + 1)
    requires Rotated(s, cur) == Window(runs, |s|) && !(s[prev].Some? && s[prev].value.msg == e.msg)
    ensures Rotated(s[cur := Some(LogLine(e.at, None, e.msg, 0))], next) == Window(Extend(runs, e), |s|)
  {
    RotatedLast(s, cur, prev, s[prev]);
    RotatedNext(s, cur, next, Some(LogLine(e.at, None, e.msg, 0)));
    WindowExtends(runs, e, |s|);
    assert Window(runs, |s|)[|s| - 1] == s[prev];
  }

  class LogRingBuffer {
    const buf: array<Option<LogLine>>
    var cur: nat
    /** Everything that was appended. */
    ghost var log: seq<Entry>

    /** The slots in the order in which the ring is traversed. */
    ghost function Traversal(): seq<Option<LogLine>>
      requires cur <= buf.Length
      reads this, buf
    {
      Rotated(buf[..], cur)
    }

    ghost predicate Valid()
      reads this, buf
    {
      cur < buf.Length && Traversal() == Window(Runs(log), buf.Length)
    }

    constructor (size: nat)
      requires size >= 1
      ensures Valid() && fresh(buf) && buf.Length == size && log == []
    {
      buf := new Option<LogLine>[size](_ => None);
      cur := 0;
      log := [];
    }

    /** Appending keeps the traversal equal to the last runs of the log. */
    method Append(msg: string, now: int)
      requires Valid()
      modifies this`cur, this`log, buf
      ensures Valid() && log == old(log) + [Entry(msg, now)]
    {
      ghost var before, runs, e := buf[..], Runs(log), Entry(msg, now);
      RunsOfMore(log, e);
      var prev := if cur == 0 then buf.Length - 1 else cur - 1;
      if buf[prev].Some? && buf[prev].value.msg == msg {
        RepeatedInRing(before, cur, prev, runs, e);
        var line := buf[prev].value;
        buf[prev] := Some(line.(count := line.count + 1, lastTs := Some(now)));
        assert buf[..] == before[prev := buf[prev]];
      } else {
        var next := if cur + 1 == buf.Length then 0 else cur + 1;
        NewInRing(before, cur, prev, next, runs, e);
        buf[cur] := Some(LogLine(now, None, msg, 0));
        assert buf[..] == before[cur := buf[cur]];
        cur := next;
      }
      log := log + [e];
    }

    /** The buffer is empty exactly if every retained run is of the empty
        message. */
    method Empty() returns (empty: bool)
      requires Valid()
      ensures empty <==> BlankRuns(Runs(log), buf.Length)
    {
      ghost var runs, slots := Runs(log), Traversal();
      var count := 0;
      for k := 0 to buf.Length
        invariant count >= 0
        invariant count == 0 <==> BlankSlots(slots, k)
      {
        var line := buf[if cur + k < buf.Length then cur + k else cur + k - buf.Length];
        assert line == slots[k];
        if line.Some? && line.value.msg != "" {
          count := count + 1;
        }
      }
      empty := count == 0;
      WindowRuns(runs, buf.Length);
    }
  }
}
