/** The snapshot history of an object (api/v2/snapshot_types.go). */
module Snapshots {
  import opened Api

  const DEFAULT_MAX_HISTORY := 5

  ghost predicate Descending(h: seq<Snapshot>) {
    forall i, j | 0 <= i < j < |h| :: h[i].version >= h[j].version
  }

  ghost predicate Distinct(h: seq<Snapshot>) {
    forall i, j | 0 <= i < j < |h| :: h[i].version != h[j].version
  }

  /** `s` is in `h` and nothing in `h` is newer. */
  ghost predicate IsTop(h: seq<Snapshot>, s: Snapshot) {
    s in h && forall x | x in h :: x.version <= s.version
  }

  ghost function Versions(h: seq<Snapshot>): set<int> {
    set x | x in h :: x.version
  }

  /** Insertion into a descending list, after any equal version. */
  function Insert(p: seq<Snapshot>, x: Snapshot): seq<Snapshot> {
    if p == [] || p[|p| - 1].version >= x.version then p + [x]
    else Insert(p[..|p| - 1], x) + [p[|p| - 1]]
  }

  /** The history sorted by version, newest first. */
  function Sorted(h: seq<Snapshot>): seq<Snapshot> {
    if h == [] then [] else Insert(Sorted(h[..|h| - 1]), h[|h| - 1])
  }

  function Latest(h: seq<Snapshot>): Option<Snapshot> {
    if h == [] then None else
      SortedMembers(h);
      Some(Sorted(h)[0])
  }

  /** Whether a snapshot may be rolled back to. */
  predicate Qualifies(s: Snapshot, ignoreTests: bool) {
    (s.status == Deployed || s.status == Superseded) &&
    (ignoreTests || !s.HasTestInPhase(PhaseFailed))
  }

  /** The first position from `i` on that qualifies, or the length. */
  function FirstQualifying(h: seq<Snapshot>, i: nat, ignoreTests: bool): (k: nat)
    requires i <= |h|
    ensures i <= k <= |h|
    ensures k < |h| ==> Qualifies(h[k], ignoreTests)
    ensures forall j | i <= j < k :: !Qualifies(h[j], ignoreTests)
    decreases |h| - i
  {
    if i == |h| || Qualifies(h[i], ignoreTests) then i
    else FirstQualifying(h, i + 1, ignoreTests)
  }

  function Previous(h: seq<Snapshot>, ignoreTests: bool): Option<Snapshot> {
    if |h| < 2 then None else
      SortedMembers(h);
      var s := Sorted(h);
      var k := FirstQualifying(s, 1, ignoreTests);
      if k < |s| then Some(s[k]) else None
  }

  function KeepRecent(h: seq<Snapshot>): seq<Snapshot> {
    if |h| > DEFAULT_MAX_HISTORY then h[..DEFAULT_MAX_HISTORY] else h
  }

  function Truncate(h: seq<Snapshot>, ignoreTests: bool): seq<Snapshot> {
    if |h| < 2 then h else
      SortedMembers(h);
      var s := Sorted(h);
      var k := FirstQualifying(s, 1, ignoreTests);
      if k < |s| then s[..k + 1] else KeepRecent(s)
  }

  function TruncateIgnoringPrevious(h: seq<Snapshot>): seq<Snapshot> {
    KeepRecent(Sorted(h))
  }

  // ---------- Sorting ----------

  lemma {:induction false} InsertPermutes(p: seq<Snapshot>, x: Snapshot)
    ensures multiset(Insert(p, x)) == multiset(p) + multiset{x}
  {
    if p != [] && p[|p| - 1].version < x.version {
      InsertPermutes(p[..|p| - 1], x);
      assert p == p[..|p| - 1] + [p[|p| - 1]];
    }
  }

  lemma InsertMembers(p: seq<Snapshot>, x: Snapshot)
    ensures |Insert(p, x)| == |p| + 1
    ensures forall y :: y in Insert(p, x) <==> y in p || y == x
  {
  }

  lemma {:induction false} InsertDescending(p: seq<Snapshot>, x: Snapshot)
    requires Descending(p)
    ensures Descending(Insert(p, x))
  {
    if p != [] && p[|p| - 1].version < x.version {
      var q, last := p[..|p| - 1], p[|p| - 1];
      InsertDescending(q, x);
      InsertMembers(q, x);
      var r := Insert(q, x);
      forall i | 0 <= i < |r| ensures r[i].version >= last.version {
        assert r[i] in r;
      }
    }
  }

  lemma {:induction false} SortedPermutes(h: seq<Snapshot>)
    ensures multiset(Sorted(h)) == multiset(h)
    ensures Descending(Sorted(h))
  {
    if h != [] {
      var q, last := h[..|h| - 1], h[|h| - 1];
      SortedPermutes(q);
      InsertPermutes(Sorted(q), last);
      InsertDescending(Sorted(q), last);
      assert h == q + [last];
    }
  }

  lemma SortedMembers(h: seq<Snapshot>)
    ensures |Sorted(h)| == |h|
    ensures Descending(Sorted(h))
    ensures forall s :: s in Sorted(h) <==> s in h
  {
    SortedPermutes(h);
    assert |multiset(Sorted(h))| == |multiset(h)|;
    forall s ensures s in Sorted(h) <==> s in h {
      assert s in multiset(Sorted(h)) <==> s in multiset(h);
    }
  }

  lemma SortedLength(h: seq<Snapshot>)
    ensures |Sorted(h)| == |h|
  {
    SortedMembers(h);
  }

  lemma {:induction false} SortedIdempotent(h: seq<Snapshot>)
    requires Descending(h)
    ensures Sorted(h) == h
  {
    if h != [] {
      var q, last := h[..|h| - 1], h[|h| - 1];
      SortedIdempotent(q);
      assert Insert(q, last) == q + [last] == h;
    }
  }

  lemma {:induction false} InsertDistinct(p: seq<Snapshot>, x: Snapshot)
    requires Distinct(p) && forall y | y in p :: y.version != x.version
    ensures Distinct(Insert(p, x))
  {
    if p != [] && p[|p| - 1].version < x.version {
      var q, last := p[..|p| - 1], p[|p| - 1];
      InsertDistinct(q, x);
      InsertMembers(q, x);
      var r := Insert(q, x);
      forall i | 0 <= i < |r| ensures r[i].version != last.version {
        assert r[i] in r;
      }
    }
  }

  lemma {:induction false} SortedDistinct(h: seq<Snapshot>)
    requires Distinct(h)
    ensures Distinct(Sorted(h))
  {
    if h != [] {
      var q, last := h[..|h| - 1], h[|h| - 1];
      SortedDistinct(q);
      SortedMembers(q);
      InsertDistinct(Sorted(q), last);
    }
  }

  /** For distinct versions the sort is determined by its contract alone, so it
      does not matter that the library sort is unstable. */
  lemma {:induction false} SortUnique(h: seq<Snapshot>, s: seq<Snapshot>)
    requires Distinct(h)
    requires Descending(s) && multiset(s) == multiset(h)
    ensures s == Sorted(h)
  {
    SortedPermutes(h);
    SortedDistinct(h);
    DescendingUnique(Sorted(h), s);
  }

  lemma SameFirst(a: seq<Snapshot>, b: seq<Snapshot>)
    requires Distinct(a) && Descending(a) && Descending(b) && a != [] && b != []
    requires multiset(a) == multiset(b)
    ensures a[0] == b[0]
  {
    assert a[0] in multiset(b) && b[0] in multiset(a);
    var i :| 0 <= i < |b| && b[i] == a[0];
    var j :| 0 <= j < |a| && a[j] == b[0];
  }

  lemma TailMultiset(a: seq<Snapshot>)
    requires a != []
    ensures multiset(a[1..]) == multiset(a) - multiset{a[0]}
  {
    assert a == [a[0]] + a[1..];
  }

  lemma {:induction false} DescendingUnique(a: seq<Snapshot>, b: seq<Snapshot>)
    requires Distinct(a) && Descending(a) && Descending(b)
    requires multiset(a) == multiset(b)
    ensures a == b
  {
    assert |multiset(a)| == |multiset(b)|;
    if a != [] {
      SameFirst(a, b);
      TailMultiset(a);
      TailMultiset(b);
      DescendingUnique(a[1..], b[1..]);
      assert a == [a[0]] + a[1..] && b == [b[0]] + b[1..];
    }
  }

  // ---------- Latest and Previous ----------

  lemma LatestIsTop(h: seq<Snapshot>)
    requires h != []
    ensures Latest(h).Some? && IsTop(h, Latest(h).value)
  {
    SortedMembers(h);
    var s := Sorted(h);
    forall x | x in h ensures x.version <= s[0].version {
      assert x in s;
    }
  }

  lemma {:induction false} InsertFirst(p: seq<Snapshot>, x: Snapshot)
    requires Descending(p) && p != []
    ensures Insert(p, x) != [] && Insert(p, x)[0] == if p[0].version < x.version then x else p[0]
  {
    if |p| > 1 && p[|p| - 1].version < x.version {
      InsertFirst(p[..|p| - 1], x);
    }
  }

  lemma LatestOf(h: seq<Snapshot>)
    requires |h| > 1
    ensures var l, x := Latest(h[..|h| - 1]).value, h[|h| - 1];
            Latest(h) == Some(if l.version < x.version then x else l)
  {
    SortedMembers(h[..|h| - 1]);
    InsertFirst(Sorted(h[..|h| - 1]), h[|h| - 1]);
  }

  /** The latest snapshot is the first one of the greatest version. */
  lemma {:induction false} LatestAt(h: seq<Snapshot>) returns (k: nat)
    requires h != []
    ensures k < |h| && Latest(h) == Some(h[k])
    ensures forall j | 0 <= j < |h| :: h[j].version <= h[k].version
    ensures forall j | 0 <= j < k :: h[j].version < h[k].version
  {
    var q, x := h[..|h| - 1], h[|h| - 1];
    k := 0;
    ShortSorted(h[..1]);
    if q == [] {
      assert h[..1] == h;
    } else {
      k := LatestAt(q);
      LatestOf(h);
      if h[k].version < x.version {
        k := |q|;
      }
    }
  }

  /** `Latest` answers the newest snapshot, and nothing else. */
  lemma LatestUnique(h: seq<Snapshot>, s: Snapshot)
    requires Distinct(h)
    ensures Latest(h) == Some(s) <==> IsTop(h, s)
  {
    if h != [] {
      LatestIsTop(h);
    }
  }

  /** Replacing a snapshot by one of the same version. */
  lemma ReplaceLatest(h: seq<Snapshot>, i: nat, s: Snapshot)
    requires i < |h| && Distinct(h) && s.version == h[i].version
    ensures Distinct(h[i := s])
    ensures Latest(h[i := s]) == if Latest(h) == Some(h[i]) then Some(s) else Latest(h)
  {
    var h' := h[i := s];
    assert forall j | 0 <= j < |h| :: h'[j].version == h[j].version;
    LatestIsTop(h);
    var k :| 0 <= k < |h| && h[k] == Latest(h).value;
    assert Latest(h) == Some(h[i]) <==> k == i;
    assert h'[k] in h';
    forall x | x in h' ensures x.version <= h'[k].version {
      var j :| 0 <= j < |h'| && h'[j] == x;
      assert h[j] in h;
    }
    LatestUnique(h', h'[k]);
  }

  /** The release was once good: it is deployed or was superseded, and none of its
      tests has failed, unless that does not matter. */
  ghost predicate WasGood(s: Snapshot, ignoreTests: bool) {
    && s.status in {Deployed, Superseded}
    && (ignoreTests || s.testHooks.None? || forall k | k in s.testHooks.value :: s.testHooks.value[k] != PhaseFailed)
  }

  lemma QualifiesWasGood(ignoreTests: bool)
    ensures forall s :: Qualifies(s, ignoreTests) <==> WasGood(s, ignoreTests)
  {
  }

  /** `p` is the newest snapshot below the latest that may be rolled back to. */
  ghost predicate IsPrevious(h: seq<Snapshot>, p: Snapshot, ignoreTests: bool) {
    && p in h && WasGood(p, ignoreTests)
    && (exists t :: IsTop(h, t) && p.version < t.version)
    && forall x, t | x in h && WasGood(x, ignoreTests) && IsTop(h, t) && x.version < t.version
         :: x.version <= p.version
  }

  lemma PreviousFound(h: seq<Snapshot>, ignoreTests: bool)
    requires Distinct(h) && Previous(h, ignoreTests).Some?
    ensures IsPrevious(h, Previous(h, ignoreTests).value, ignoreTests)
  {
    QualifiesWasGood(ignoreTests);
    SortedMembers(h);
    SortedDistinct(h);
    LatestIsTop(h);
    var s := Sorted(h);
    var k := FirstQualifying(s, 1, ignoreTests);
    assert s[k] in s && s[0] in s;
    assert IsTop(h, s[0]) && s[k].version < s[0].version;
    forall x, t | x in h && WasGood(x, ignoreTests) && IsTop(h, t) && x.version < t.version
      ensures x.version <= s[k].version
    {
      assert x in s && t in s;
      var j :| 0 <= j < |s| && s[j] == x;
      assert t.version <= s[0].version;
    }
  }

  /** A qualifying snapshot below the latest is found at or after the first
      qualifying position. */
  lemma QualifyingIsFound(h: seq<Snapshot>, p: Snapshot, t: Snapshot, ignoreTests: bool)
    requires p in h && Qualifies(p, ignoreTests) && IsTop(h, t) && p.version < t.version
    ensures Previous(h, ignoreTests).Some?
  {
    SortedMembers(h);
    var s := Sorted(h);
    assert t in s && p in s;
    var j :| 0 <= j < |s| && s[j] == p;
    var k :| 0 <= k < |s| && s[k] == t;
    assert s[0].version >= t.version;
    assert FirstQualifying(s, 1, ignoreTests) <= j;
  }

  lemma PreviousComplete(h: seq<Snapshot>, p: Snapshot, ignoreTests: bool)
    requires Distinct(h) && IsPrevious(h, p, ignoreTests)
    ensures Previous(h, ignoreTests) == Some(p)
  {
    QualifiesWasGood(ignoreTests);
    var t :| IsTop(h, t) && p.version < t.version;
    QualifyingIsFound(h, p, t, ignoreTests);
    PreviousFound(h, ignoreTests);
    var q := Previous(h, ignoreTests).value;
    assert q in h && q.version == p.version;
  }

  /** `Previous` answers the newest qualifying snapshot below the latest if there
      is one, and nothing otherwise. */
  lemma PreviousExact(h: seq<Snapshot>, p: Snapshot, ignoreTests: bool)
    requires Distinct(h)
    ensures Previous(h, ignoreTests) == Some(p) <==> IsPrevious(h, p, ignoreTests)
  {
    if Previous(h, ignoreTests) == Some(p) {
      PreviousFound(h, ignoreTests);
    }
    if IsPrevious(h, p, ignoreTests) {
      PreviousComplete(h, p, ignoreTests);
    }
  }

  lemma ReplaceTopKeepsPrevious(h: seq<Snapshot>, i: nat, s: Snapshot, p: Snapshot, ignoreTests: bool)
    requires Distinct(h) && i < |h| && IsTop(h, h[i]) && s.version == h[i].version && IsPrevious(h, p, ignoreTests)
    ensures IsPrevious(h[i := s], p, ignoreTests)
  {
    var h' := h[i := s];
    var j :| 0 <= j < |h| && h[j] == p;
    assert j != i && h'[j] == p;
    ReplacedTop(h, i, s);
    forall x, t | x in h' && WasGood(x, ignoreTests) && IsTop(h', t) && x.version < t.version
      ensures x.version <= p.version
    {
      assert t.version == s.version;
      assert x in h && IsTop(h, h[i]);
    }
  }

  /** What may be rolled back to does not depend on the latest snapshot. */
  lemma ReplaceTopPrevious(h: seq<Snapshot>, i: nat, s: Snapshot, ignoreTests: bool)
    requires Distinct(h) && i < |h| && IsTop(h, h[i]) && s.version == h[i].version
    ensures Previous(h[i := s], ignoreTests) == Previous(h, ignoreTests)
  {
    var h', p := h[i := s], Previous(h, ignoreTests);
    ReplaceLatest(h, i, s);
    if p.Some? {
      PreviousFound(h, ignoreTests);
      ReplaceTopKeepsPrevious(h, i, s, p.value, ignoreTests);
      PreviousComplete(h', p.value, ignoreTests);
    } else if Previous(h', ignoreTests).Some? {
      var q := Previous(h', ignoreTests).value;
      PreviousFound(h', ignoreTests);
      ReplacedTop(h, i, s);
      ReplaceTopKeepsPrevious(h', i, h[i], q, ignoreTests);
      assert h'[i := h[i]] == h;
      PreviousComplete(h, q, ignoreTests);
    }
  }

  lemma ReplacedTop(h: seq<Snapshot>, i: nat, s: Snapshot)
    requires i < |h| && IsTop(h, h[i]) && s.version == h[i].version
    ensures IsTop(h[i := s], s)
  {
    var h' := h[i := s];
    assert h'[i] in h';
    forall x | x in h' ensures x.version <= s.version {
      var k :| 0 <= k < |h'| && h'[k] == x;
      assert h[k] in h;
    }
  }

  lemma PreviousMember(h: seq<Snapshot>, ignoreTests: bool)
    requires Previous(h, ignoreTests).Some?
    ensures Previous(h, ignoreTests).value in h
  {
    SortedMembers(h);
  }

  lemma LatestMember(h: seq<Snapshot>)
    requires h != []
    ensures Latest(h).value in h
  {
    SortedMembers(h);
  }

  lemma LatestSorted(h: seq<Snapshot>)
    ensures Latest(Sorted(h)) == Latest(h)
  {
    SortedMembers(h);
    SortedIdempotent(Sorted(h));
  }

  lemma PreviousSorted(h: seq<Snapshot>, ignoreTests: bool)
    ensures Previous(Sorted(h), ignoreTests) == Previous(h, ignoreTests)
  {
    SortedMembers(h);
    SortedIdempotent(Sorted(h));
  }

  // ---------- Truncation ----------

  lemma ShortSorted(h: seq<Snapshot>)
    requires |h| < 2
    ensures Sorted(h) == h
  {
  }

  lemma PrefixSorted(h: seq<Snapshot>, n: nat)
    requires n <= |h|
    ensures n <= |Sorted(h)|
    ensures Sorted(Sorted(h)[..n]) == Sorted(h)[..n]
    ensures Distinct(h) ==> Distinct(Sorted(h)[..n])
  {
    SortedMembers(h);
    SortedIdempotent(Sorted(h)[..n]);
    if Distinct(h) {
      SortedDistinct(h);
    }
  }

  /** Truncation leaves a non-empty prefix of the sorted history, whichever of
      the two is used. */
  lemma TruncatePrefix(h: seq<Snapshot>, ignoreTests: bool)
    ensures Truncate(h, ignoreTests) <= Sorted(h)
    ensures h != [] ==> Truncate(h, ignoreTests) != []
    ensures TruncateIgnoringPrevious(h) <= Sorted(h)
    ensures h != [] ==> TruncateIgnoringPrevious(h) != []
  {
  }

  lemma PrefixLatest(h: seq<Snapshot>, t: seq<Snapshot>)
    requires t <= Sorted(h) && (h != [] ==> t != [])
    ensures Sorted(t) == t
    ensures Latest(t) == Latest(h)
    ensures forall s | s in t :: s in h
    ensures Distinct(h) ==> Distinct(t)
  {
    SortedMembers(h);
    PrefixSorted(h, |t|);
    assert t == Sorted(h)[..|t|];
    forall s | s in t ensures s in h {
      assert s in Sorted(h);
    }
  }

  lemma FirstQualifyingPrefix(s: seq<Snapshot>, t: seq<Snapshot>, ignoreTests: bool)
    requires t <= s && |t| >= 1
    ensures var k := FirstQualifying(s, 1, ignoreTests);
            FirstQualifying(t, 1, ignoreTests) == if k < |t| then k else |t|
  {
  }

  /** What truncation does to the part below the latest snapshot. */
  lemma TruncateScan(h: seq<Snapshot>, ignoreTests: bool)
    requires |h| >= 2
    ensures var t, p := Truncate(h, ignoreTests), Previous(h, ignoreTests);
            && |t| >= 2
            && (p.Some? ==> t[|t| - 1] == p.value && FirstQualifying(t, 1, ignoreTests) == |t| - 1)
            && (p.None? ==> |t| == (if |h| < 5 then |h| else 5) && FirstQualifying(t, 1, ignoreTests) == |t|)
  {
    SortedMembers(h);
    FirstQualifyingPrefix(Sorted(h), Truncate(h, ignoreTests), ignoreTests);
  }

  lemma TruncateKeepsLatest(h: seq<Snapshot>, ignoreTests: bool)
    ensures var t := Truncate(h, ignoreTests);
            t <= Sorted(h) && Sorted(t) == t && Latest(t) == Latest(h) && (Distinct(h) ==> Distinct(t))
  {
    TruncatePrefix(h, ignoreTests);
    PrefixLatest(h, Truncate(h, ignoreTests));
  }

  lemma TruncateAgain(h: seq<Snapshot>, ignoreTests: bool)
    requires |h| >= 2
    ensures var t := Truncate(h, ignoreTests);
            Truncate(t, ignoreTests) == t && Previous(t, ignoreTests) == Previous(h, ignoreTests)
  {
    var t := Truncate(h, ignoreTests);
    TruncateKeepsLatest(h, ignoreTests);
    TruncateScan(h, ignoreTests);
    assert t[..|t|] == t;
  }

  /** Truncating keeps the latest snapshot and the rollback target, keeps
      versions distinct, and truncating again changes nothing. */
  lemma TruncateKeeps(h: seq<Snapshot>, ignoreTests: bool)
    ensures var t := Truncate(h, ignoreTests);
            && t <= Sorted(h)
            && Sorted(t) == t
            && Latest(t) == Latest(h)
            && Previous(t, ignoreTests) == Previous(h, ignoreTests)
            && Truncate(t, ignoreTests) == t
            && (Distinct(h) ==> Distinct(t))
            && (Previous(h, ignoreTests).Some? ==> t != [] && t[|t| - 1] == Previous(h, ignoreTests).value)
            && (Previous(h, ignoreTests).None? ==> |t| == if |h| < 5 then |h| else 5)
  {
    TruncateKeepsLatest(h, ignoreTests);
    if |h| >= 2 {
      TruncateScan(h, ignoreTests);
      TruncateAgain(h, ignoreTests);
    }
  }

  lemma TruncateKeepsPrevious(h: seq<Snapshot>, ignoreTests: bool)
    ensures Previous(Truncate(h, ignoreTests), ignoreTests) == Previous(h, ignoreTests)
  {
    if |h| >= 2 {
      TruncateAgain(h, ignoreTests);
    }
  }

  /** A prefix of a descending list is newer than the rest. */
  lemma PrefixNewer(s: seq<Snapshot>, t: seq<Snapshot>, x: Snapshot, y: Snapshot)
    requires Descending(s) && Distinct(s) && t <= s && x in t && y in s && y !in t
    ensures y.version < x.version
  {
    var i :| 0 <= i < |t| && t[i] == x;
    var j :| 0 <= j < |s| && s[j] == y;
    assert forall k | 0 <= k < |t| :: s[k] in t;
    assert |t| <= j && s[i] == x;
  }

  /** Truncation without regard to rollback targets keeps exactly the five
      greatest versions. */
  lemma TruncateIgnoringKeepsGreatest(h: seq<Snapshot>)
    requires Distinct(h)
    ensures var t := TruncateIgnoringPrevious(h);
            && |t| == (if |h| < 5 then |h| else 5)
            && Latest(t) == Latest(h)
            && Distinct(t) && Sorted(t) == t
            && (forall x | x in t :: x in h)
            && (forall x, y | x in t && y in h && y !in t :: y.version < x.version)
            && TruncateIgnoringPrevious(t) == t
  {
    var t := TruncateIgnoringPrevious(h);
    TruncatePrefix(h, true);
    PrefixLatest(h, t);
    SortedMembers(h);
    SortedDistinct(h);
    forall x, y | x in t && y in h && y !in t ensures y.version < x.version {
      PrefixNewer(Sorted(h), t, x, y);
    }
  }
}
