/** The Ready condition as a summary of the others (summarize in
    internal/reconcile/release.go). */
module Summary {
  import opened Api

  datatype ConditionType =
    | Remediated
    | TestSuccess
    | Released
    | Ready
    | Stalled
    | Reconciling
    | Drifted
    | OtherCondition(text: string)

  datatype ConditionStatus = True | False | Unknown

  datatype Condition = Condition(ctype: ConditionType, status: ConditionStatus, reason: string, message: string, generation: int)

  /** The position of a type, or the length. */
  function Rank(types: seq<ConditionType>, t: ConditionType): (i: nat)
    ensures i <= |types|
    ensures i < |types| ==> types[i] == t
    ensures i == |types| <==> t !in types
  {
    if types == [] || types[0] == t then 0 else 1 + Rank(types[1..], t)
  }

  /** The comparison of the sort. It is not a strict weak order: conditions whose
      generations disagree with their priorities are incomparable. */
  predicate Less(types: seq<ConditionType>, a: Condition, b: Condition) {
    if a.ctype !in types then false
    else if b.ctype !in types then true
    else a.generation >= b.generation && Rank(types, a.ctype) < Rank(types, b.ctype)
  }

  /** Insertion from the right, as the stable library sort does for short lists. */
  function Insert(types: seq<ConditionType>, p: seq<Condition>, x: Condition): seq<Condition> {
    if p == [] || !Less(types, x, p[|p| - 1]) then p + [x]
    else Insert(types, p[..|p| - 1], x) + [p[|p| - 1]]
  }

  function Sort(types: seq<ConditionType>, cs: seq<Condition>): seq<Condition> {
    if cs == [] then [] else Insert(types, Sort(types, cs[..|cs| - 1]), cs[|cs| - 1])
  }

  function Without(cs: seq<Condition>, t: ConditionType): seq<Condition> {
    if cs == [] then []
    else Without(cs[..|cs| - 1], t) + (if cs[|cs| - 1].ctype == t then [] else [cs[|cs| - 1]])
  }

  /** Replaces the condition of the same type, or adds one. */
  function Set(cs: seq<Condition>, c: Condition): seq<Condition> {
    Without(cs, c.ctype) + [c]
  }

  function SummaryTypes(enable: bool, ignore: bool): seq<ConditionType> {
    if enable && !ignore then [Remediated, TestSuccess, Released] else [Remediated, Released]
  }

  /** The Ready condition that the first condition gives rise to. */
  function ReadyFrom(first: Condition, generation: int): Condition {
    Condition(Ready, if first.ctype == Remediated then False else first.status, first.reason, first.message, generation)
  }

  function Relevant(cs: seq<Condition>, enable: bool): seq<Condition> {
    if enable then cs else Without(cs, TestSuccess)
  }

  lemma {:induction false} SortMembers(types: seq<ConditionType>, cs: seq<Condition>)
    ensures multiset(Sort(types, cs)) == multiset(cs)
    ensures |Sort(types, cs)| == |cs|
  {
    if cs != [] {
      SortMembers(types, cs[..|cs| - 1]);
      InsertMembers(types, Sort(types, cs[..|cs| - 1]), cs[|cs| - 1]);
      assert cs == cs[..|cs| - 1] + [cs[|cs| - 1]];
    }
  }

  lemma {:induction false} InsertMembers(types: seq<ConditionType>, p: seq<Condition>, x: Condition)
    ensures multiset(Insert(types, p, x)) == multiset(p) + multiset{x}
    ensures |Insert(types, p, x)| == |p| + 1
  {
    if p != [] && Less(types, x, p[|p| - 1]) {
      InsertMembers(types, p[..|p| - 1], x);
      assert p == p[..|p| - 1] + [p[|p| - 1]];
    }
  }

  /** summarize. */
  function Summarized(cs: seq<Condition>, enable: bool, ignore: bool, generation: int): seq<Condition> {
    var relevant := Relevant(cs, enable);
    if relevant == [] then relevant
    else
      SortMembers(SummaryTypes(enable, ignore), relevant);
      var sorted := Sort(SummaryTypes(enable, ignore), relevant);
      var ready := ReadyFrom(sorted[0], generation);
      Set(if ready.status.True? then Without(sorted, Stalled) else sorted, ready)
  }

  // ---------- The first condition ----------

  /** `t` is of a summary type, and before every other condition of one. */
  ghost predicate TopPriority(types: seq<ConditionType>, cs: seq<Condition>, t: Condition) {
    && t in cs && t.ctype in types
    && forall c | c in cs && c.ctype in types && c != t :: Rank(types, t.ctype) < Rank(types, c.ctype)
  }

  /** No summary condition is of a later generation than `t`. */
  ghost predicate UpToDate(types: seq<ConditionType>, cs: seq<Condition>, t: Condition) {
    forall c | c in cs && c.ctype in types :: c.generation <= t.generation
  }

  lemma {:induction false} InsertTop(types: seq<ConditionType>, p: seq<Condition>, t: Condition)
    requires forall c | c in p :: c == t || Less(types, t, c)
    requires p != [] && p[0] != t
    ensures Insert(types, p, t)[0] == t || t in p
    ensures t !in p ==> Insert(types, p, t)[0] == t
  {
    assert p[|p| - 1] in p;
    if Less(types, t, p[|p| - 1]) && |p| > 1 {
      InsertTop(types, p[..|p| - 1], t);
    }
  }

  lemma {:induction false} InsertBehind(types: seq<ConditionType>, p: seq<Condition>, x: Condition, t: Condition)
    requires p != [] && p[0] == t && !Less(types, x, t)
    ensures Insert(types, p, x)[0] == t
  {
    InsertMembers(types, p, x);
    if Less(types, x, p[|p| - 1]) {
      InsertMembers(types, p[..|p| - 1], x);
      InsertBehind(types, p[..|p| - 1], x, t);
    }
  }

  /** A condition that comes before all those sorted so far. */
  lemma InsertedTop(types: seq<ConditionType>, cs: seq<Condition>, t: Condition)
    requires t !in cs && forall c | c in cs :: Less(types, t, c)
    ensures var p := Insert(types, Sort(types, cs), t);
            p != [] && p[0] == t
  {
    var p := Sort(types, cs);
    SortMembers(types, cs);
    if p != [] {
      forall c | c in p ensures c != t && Less(types, t, c) {
        assert c in multiset(cs);
      }
      assert p[0] in p;
      InsertTop(types, p, t);
    }
  }

  lemma {:induction false} SortedTop(types: seq<ConditionType>, cs: seq<Condition>, t: Condition)
    requires forall c | c in cs && c != t :: Less(types, t, c) && !Less(types, c, t)
    requires t in cs && !Less(types, t, t)
    ensures Sort(types, cs) != [] && Sort(types, cs)[0] == t
  {
    var init, x := cs[..|cs| - 1], cs[|cs| - 1];
    assert cs == init + [x];
    if t in init {
      SortedTop(types, init, t);
      InsertBehind(types, Sort(types, init), x, t);
      InsertMembers(types, Sort(types, init), x);
    } else {
      InsertedTop(types, init, t);
    }
  }

  /** If the condition of highest priority is up to date, it is first after the
      sort, whatever the order before. */
  lemma TopIsFirst(types: seq<ConditionType>, cs: seq<Condition>, t: Condition)
    requires TopPriority(types, cs, t) && UpToDate(types, cs, t)
    ensures Sort(types, cs) != [] && Sort(types, cs)[0] == t
  {
    SortedTop(types, cs, t);
  }

  lemma {:induction false} InsertNotFirst(types: seq<ConditionType>, p: seq<Condition>, x: Condition)
    requires p != []
    ensures Insert(types, p, x) != [] && (Insert(types, p, x)[0] == x || Insert(types, p, x)[0] == p[0])
  {
    InsertMembers(types, p, x);
    if Less(types, x, p[|p| - 1]) && |p| > 1 {
      InsertMembers(types, p[..|p| - 1], x);
      InsertNotFirst(types, p[..|p| - 1], x);
    }
  }

  /** A condition that starts behind one it is not less than never gets first. */
  lemma {:induction false} StaysBehind(types: seq<ConditionType>, s: Condition, t: Condition, rest: seq<Condition>)
    requires s != t && !Less(types, t, s) && t !in rest
    ensures Sort(types, [s, t] + rest) != [] && Sort(types, [s, t] + rest)[0] != t
  {
    var cs := [s, t] + rest;
    if rest == [] {
      assert cs[..1] == [s] && [s][..0] == [];
      assert Sort(types, [s]) == [s];
      assert Sort(types, cs) == Insert(types, [s], t);
    } else {
      var init, x := rest[..|rest| - 1], rest[|rest| - 1];
      StaysBehind(types, s, t, init);
      assert cs[..|cs| - 1] == [s, t] + init;
      assert x in rest;
      InsertNotFirst(types, Sort(types, [s, t] + init), x);
    }
  }

  function RemoveAt<T>(s: seq<T>, i: nat): seq<T>
    requires i < |s|
  {
    s[..i] + s[i + 1..]
  }

  lemma RemoveAtMultiset<T>(s: seq<T>, i: nat)
    requires i < |s|
    ensures multiset(s) == multiset{s[i]} + multiset(RemoveAt(s, i))
  {
    assert s == s[..i] + [s[i]] + s[i + 1..];
  }

  /** If some summary condition is newer, there is an order of the same conditions
      in which the one of highest priority does not come first. */
  lemma StaleIsNotFirst(types: seq<ConditionType>, cs: seq<Condition>, t: Condition) returns (order: seq<Condition>)
    requires TopPriority(types, cs, t) && !UpToDate(types, cs, t) && multiset(cs)[t] == 1
    ensures multiset(order) == multiset(cs) && Sort(types, order) != [] && Sort(types, order)[0] != t
  {
    var s :| s in cs && s.ctype in types && s.generation > t.generation;
    var i :| 0 <= i < |cs| && cs[i] == s;
    RemoveAtMultiset(cs, i);
    var cs1 := RemoveAt(cs, i);
    assert t in multiset(cs1);
    var j :| 0 <= j < |cs1| && cs1[j] == t;
    RemoveAtMultiset(cs1, j);
    var rest := RemoveAt(cs1, j);
    assert multiset(rest)[t] == 0;
    order := [s, t] + rest;
    StaysBehind(types, s, t, rest);
  }

  /** The condition of highest priority comes first whatever the order of the
      conditions, exactly if no summary condition is newer. */
  lemma FirstExactly(types: seq<ConditionType>, cs: seq<Condition>, t: Condition)
    requires TopPriority(types, cs, t) && multiset(cs)[t] == 1
    ensures (forall order: seq<Condition> | multiset(order) == multiset(cs) ::
               Sort(types, order) != [] && Sort(types, order)[0] == t)
            <==> UpToDate(types, cs, t)
  {
    if UpToDate(types, cs, t) {
      forall order: seq<Condition> | multiset(order) == multiset(cs)
        ensures Sort(types, order) != [] && Sort(types, order)[0] == t
      {
        assert forall c :: c in order <==> c in multiset(cs);
        TopIsFirst(types, order, t);
      }
    } else {
      var order := StaleIsNotFirst(types, cs, t);
    }
  }

  /** The outcome of a release of generation 2 comes before a remediation of
      generation 1 if it happens to stand before it, and after it if not. */
  lemma OrderDecides()
    ensures var released := Condition(Released, True, "", "", 2);
            var remediated := Condition(Remediated, True, "", "", 1);
            && Sort([Remediated, Released], [released, remediated]) == [released, remediated]
            && Sort([Remediated, Released], [remediated, released]) == [remediated, released]
  {
    var released := Condition(Released, True, "", "", 2);
    var remediated := Condition(Remediated, True, "", "", 1);
    assert [released, remediated][..1] == [released] && [remediated, released][..1] == [remediated];
    assert Sort([Remediated, Released], [released]) == [released] && Sort([Remediated, Released], [remediated]) == [remediated];
  }

  // ---------- The summary ----------

  lemma {:induction false} WithoutMembers(cs: seq<Condition>, t: ConditionType)
    ensures forall c :: c in Without(cs, t) <==> c in cs && c.ctype != t
  {
    if cs != [] {
      WithoutMembers(cs[..|cs| - 1], t);
      assert cs == cs[..|cs| - 1] + [cs[|cs| - 1]];
    }
  }

  lemma {:induction false} FinishMembers(sorted: seq<Condition>, ready: Condition)
    requires ready.ctype == Ready
    ensures var out := Set(if ready.status.True? then Without(sorted, Stalled) else sorted, ready);
            forall c :: c in out <==>
              c == ready || (c in sorted && c.ctype != Ready && !(c.ctype == Stalled && ready.status.True?))
  {
    WithoutMembers(sorted, Stalled);
    WithoutMembers(if ready.status.True? then Without(sorted, Stalled) else sorted, Ready);
  }

  /** What is left of the conditions, given the one that is sorted first. */
  lemma {:induction false} SummaryMembers(cs: seq<Condition>, enable: bool, ignore: bool, generation: int, t: Condition)
    requires var types := SummaryTypes(enable, ignore);
             TopPriority(types, Relevant(cs, enable), t) && UpToDate(types, Relevant(cs, enable), t)
    ensures var ready := ReadyFrom(t, generation);
            forall c :: c in Summarized(cs, enable, ignore, generation) <==>
              c == ready
              || (c in Relevant(cs, enable) && c.ctype != Ready && !(c.ctype == Stalled && ready.status.True?))
  {
    var types, relevant := SummaryTypes(enable, ignore), Relevant(cs, enable);
    TopIsFirst(types, relevant, t);
    SortMembers(types, relevant);
    var sorted := Sort(types, relevant);
    assert forall c :: c in sorted <==> c in multiset(relevant);
    FinishMembers(sorted, ReadyFrom(t, generation));
  }

  /** If the condition of highest priority is up to date, Ready reflects it and
      nothing else, Stalled goes exactly when Ready is True, and every other
      condition stays. */
  lemma {:induction false} ReadySummary(cs: seq<Condition>, enable: bool, ignore: bool, generation: int, t: Condition)
    requires var types := SummaryTypes(enable, ignore);
             TopPriority(types, Relevant(cs, enable), t) && UpToDate(types, Relevant(cs, enable), t)
    ensures var out, ready := Summarized(cs, enable, ignore, generation), ReadyFrom(t, generation);
            && (forall c :: c in out && c.ctype == Ready <==> c == ready)
            && (forall c: Condition | c.ctype == Stalled :: c in out <==> c in cs && !ready.status.True?)
            && (forall c: Condition | c.ctype != Ready && c.ctype != Stalled :: c in out <==> c in Relevant(cs, enable))
  {
    SummaryMembers(cs, enable, ignore, generation, t);
    WithoutMembers(cs, TestSuccess);
  }

  ghost predicate DistinctTypes(cs: seq<Condition>) {
    forall c, d | c in cs && d in cs :: c.ctype == d.ctype ==> c == d
  }

  /** The condition that decides about Ready. */
  ghost predicate Decides(cs: seq<Condition>, enable: bool, ignore: bool, c: Condition) {
    && c in cs
    && match c.ctype
       case Remediated => true
       case TestSuccess => enable && !ignore && forall d | d in cs :: d.ctype != Remediated
       case Released => forall d | d in cs :: d.ctype != Remediated && (enable && !ignore ==> d.ctype != TestSuccess)
       case _ => false
  }

  lemma DecidesTop(cs: seq<Condition>, enable: bool, ignore: bool, c: Condition)
    requires DistinctTypes(cs) && Decides(cs, enable, ignore, c)
    ensures TopPriority(SummaryTypes(enable, ignore), Relevant(cs, enable), c)
  {
    WithoutMembers(cs, TestSuccess);
    var types := SummaryTypes(enable, ignore);
    assert Rank([Remediated, TestSuccess, Released], Remediated) == 0;
    assert Rank([Remediated, TestSuccess, Released], TestSuccess) == 1 by {
      assert [Remediated, TestSuccess, Released][1..] == [TestSuccess, Released];
    }
    assert Rank([Remediated, Released], Remediated) == 0;
    assert Rank([Remediated, Released], Released) == 1 by {
      assert [Remediated, Released][1..] == [Released];
    }
  }

  /** With distinct types and equal generations: Ready is False whenever Remediated
      is present; otherwise it copies TestSuccess if tests are enabled and their
      failures are not ignored, and Released if not, whatever the order of the
      conditions. */
  lemma ReadyMeans(cs: seq<Condition>, enable: bool, ignore: bool, generation: int, c: Condition)
    requires DistinctTypes(cs) && Decides(cs, enable, ignore, c)
    requires forall d | d in cs :: d.generation == c.generation
    ensures var out := Summarized(cs, enable, ignore, generation);
            forall r | r in out && r.ctype == Ready ::
              r.status == (if c.ctype == Remediated then False else c.status) && r.reason == c.reason && r.message == c.message
    ensures Condition(Ready, if c.ctype == Remediated then False else c.status, c.reason, c.message, generation)
              in Summarized(cs, enable, ignore, generation)
    ensures forall d: Condition | d.ctype != Ready :: d in Summarized(cs, enable, ignore, generation) <==>
              && d in cs && (d.ctype == TestSuccess ==> enable)
              && (d.ctype == Stalled ==> c.ctype == Remediated || c.status != True)
  {
    DecidesTop(cs, enable, ignore, c);
    WithoutMembers(cs, TestSuccess);
    ReadySummary(cs, enable, ignore, generation, c);
  }

  /** One more element sorted. */
  lemma SortStep(types: seq<ConditionType>, all: seq<Condition>, i: nat)
    requires i < |all| && |Sort(types, all[..i])| == i
    ensures var s := Sort(types, all[..i]) + all[i..];
            && s[..i] == Sort(types, all[..i]) && s[i] == all[i] && s[i + 1..] == all[i + 1..]
            && Sort(types, all[..i + 1]) == Insert(types, s[..i], s[i]) && |Sort(types, all[..i + 1])| == i + 1
  {
    assert all[..i + 1][..i] == all[..i];
    SortMembers(types, all[..i + 1]);
  }

  /** One swap: the last of `p` goes behind `x`. */
  lemma SinkStep(types: seq<ConditionType>, p: seq<Condition>, x: Condition, rest: seq<Condition>)
    requires p != [] && Less(types, x, p[|p| - 1])
    ensures var n, y := |p| - 1, p[|p| - 1];
            && (p + ([x] + rest))[n := x][n + 1 := y] == p[..n] + ([x] + ([y] + rest))
            && Insert(types, p, x) + rest == Insert(types, p[..n], x) + ([y] + rest)
  {
  }

  /** The conditions of one object. */
  class Conditions {
    var items: seq<Condition>

    constructor (cs: seq<Condition>)
      ensures items == cs
    {
      items := cs;
    }

    method Delete(t: ConditionType)
      modifies this
      ensures items == Without(old(items), t)
    {
      var kept := [];
      for i := 0 to |items|
        invariant items == old(items) && kept == Without(items[..i], t)
      {
        assert items[..i + 1][..i] == items[..i];
        if items[i].ctype != t {
          kept := kept + [items[i]];
        }
      }
      assert items[..|items|] == items;
      items := kept;
    }

    /** Moves the condition at `i` to its place among those before it, by swapping
        neighbours. */
    method SinkIn(types: seq<ConditionType>, i: nat)
      requires i < |items|
      modifies this
      ensures items == Insert(types, old(items)[..i], old(items)[i]) + old(items)[i + 1..]
    {
      ghost var p, x, rest := items[..i], items[i], items[i + 1..];
      ghost var goal := Insert(types, p, x) + rest;
      var j := i;
      assert p[..i] == p;
      while j > 0 && Less(types, items[j], items[j - 1])
        invariant 0 <= j <= i <= |p|
        invariant items == p[..j] + ([x] + rest)
        invariant goal == Insert(types, p[..j], x) + rest
      {
        assert items[j] == x && items[j - 1] == p[j - 1];
        SinkStep(types, p[..j], x, rest);
        assert p[..j][..j - 1] == p[..j - 1];
        items := items[j - 1 := items[j]][j := items[j - 1]];
        rest := [p[j - 1]] + rest;
        j := j - 1;
      }
      assert j > 0 ==> p[..j][j - 1] == items[j - 1] && items[j] == x;
      assert goal == p[..j] + [x] + rest;
    }

    /** Sorts in place. */
    method SortStable(types: seq<ConditionType>)
      modifies this
      ensures items == Sort(types, old(items))
    {
      ghost var all := items;
      for i := 0 to |items|
        invariant items == Sort(types, all[..i]) + all[i..] && |Sort(types, all[..i])| == i
      {
        SortStep(types, all, i);
        SinkIn(types, i);
      }
      assert all[..|all|] == all && all[|all|..] == [];
    }

    method Summarize(enable: bool, ignore: bool, generation: int)
      modifies this
      ensures items == Summarized(old(items), enable, ignore, generation)
    {
      if !enable {
        Delete(TestSuccess);
      }
      if items == [] {
        return;
      }
      SortMembers(SummaryTypes(enable, ignore), items);
      SortStable(SummaryTypes(enable, ignore));
      var first := items[0];
      var status := if first.ctype == Remediated then False else first.status;
      if status == True {
        Delete(Stalled);
      }
      Delete(Ready);
      items := items + [Condition(Ready, status, first.reason, first.message, generation)];
    }
  }
}
