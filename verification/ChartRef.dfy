/** The chart reference kept in the status, and the life of the chart object it
    names (api/v2/reference_types.go, api/v2/helmrelease_types.go,
    internal/reconcile/helmchart_template.go). */
module ChartRef {
  import opened Api

  datatype Ref = Ref(kind: string, ns: string, name: string)

  const HELM_CHART := "HelmChart"
  const OCI_REPOSITORY := "OCIRepository"

  // ---------- Printing and parsing ----------

  function Print(r: Ref): string {
    r.kind + "/" + r.ns + "/" + r.name
  }

  function TrimPrefix(s: string, prefix: string): string {
    if prefix <= s then s[|prefix|..] else s
  }

  /** SetChart; no reference clears the field. */
  function SetChart(r: Option<Ref>): string {
    if r.None? then "" else TrimPrefix(Print(r.value), HELM_CHART + "/")
  }

  function Split(s: string): (parts: seq<string>)
    ensures parts != []
  {
    if s == "" then [""]
    else
      var rest := Split(s[1..]);
      if s[0] == '/' then [""] + rest else [[s[0]] + rest[0]] + rest[1..]
  }

  /** GetHelmChartReference of the status. */
  function Parse(s: string): Option<Ref> {
    if s == "" then None
    else
      var p := Split(s);
      if |p| == 2 then Some(Ref(HELM_CHART, p[0], p[1]))
      else if |p| == 3 then Some(Ref(p[0], p[1], p[2]))
      else None
  }

  predicate SlashFree(s: string) {
    '/' !in s
  }

  lemma {:induction false} SplitSlashFree(s: string)
    ensures forall i | 0 <= i < |Split(s)| :: SlashFree(Split(s)[i])
  {
    if s != "" {
      SplitSlashFree(s[1..]);
    }
  }

  lemma {:induction false} SplitOne(a: string)
    requires SlashFree(a)
    ensures Split(a) == [a]
  {
    if a != "" {
      assert a[0] in a;
      SplitOne(a[1..]);
      assert a == [a[0]] + a[1..];
    }
  }

  lemma {:induction false} SplitCons(a: string, rest: string)
    requires SlashFree(a)
    ensures Split(a + "/" + rest) == [a] + Split(rest)
  {
    var s := a + "/" + rest;
    if a == "" {
      assert s[1..] == rest;
    } else {
      assert a[0] in a;
      SplitCons(a[1..], rest);
      assert s[1..] == a[1..] + "/" + rest;
      assert a == [a[0]] + a[1..];
    }
  }

  lemma Split2(b: string, c: string)
    requires SlashFree(b) && SlashFree(c)
    ensures Split(b + "/" + c) == [b, c]
  {
    SplitCons(b, c);
    SplitOne(c);
  }

  lemma Split3(a: string, b: string, c: string)
    requires SlashFree(a) && SlashFree(b) && SlashFree(c)
    ensures Split(a + "/" + b + "/" + c) == [a, b, c]
  {
    SplitCons(a, b + "/" + c);
    Split2(b, c);
    assert a + "/" + b + "/" + c == a + "/" + (b + "/" + c);
  }

  ghost predicate SlashFreeRef(r: Ref) {
    SlashFree(r.kind) && SlashFree(r.ns) && SlashFree(r.name)
  }

  lemma TrimHelmChart(ns: string, name: string)
    ensures SetChart(Some(Ref(HELM_CHART, ns, name))) == ns + "/" + name
  {
  }

  lemma HelmChartFirst(s: string)
    requires HELM_CHART + "/" <= s
    ensures Split(s)[0] == HELM_CHART
  {
    var p := HELM_CHART + "/";
    SplitCons(HELM_CHART, s[|p|..]);
    assert p + s[|p|..] == s;
  }

  lemma TrimOther(r: Ref)
    requires SlashFree(r.kind) && r.kind != HELM_CHART
    ensures SetChart(Some(r)) == r.kind + "/" + r.ns + "/" + r.name
  {
    var p, s := HELM_CHART + "/", Print(r);
    SplitCons(r.kind, r.ns + "/" + r.name);
    assert s == r.kind + "/" + (r.ns + "/" + r.name);
    assert Split(s)[0] == r.kind;
    if p <= s {
      HelmChartFirst(s);
    }
  }

  lemma RoundTrip(r: Ref)
    requires SlashFreeRef(r)
    ensures Parse(SetChart(Some(r))) == Some(r)
  {
    if r.kind == HELM_CHART {
      TrimHelmChart(r.ns, r.name);
      Split2(r.ns, r.name);
    } else {
      TrimOther(r);
      Split3(r.kind, r.ns, r.name);
    }
  }

  /** A reference survives being stored in the status exactly if none of its parts
      contains a slash. */
  lemma RoundTripExactly(r: Ref)
    ensures Parse(SetChart(Some(r))) == Some(r) <==> SlashFreeRef(r)
  {
    if SlashFreeRef(r) {
      RoundTrip(r);
    } else {
      SplitSlashFree(SetChart(Some(r)));
    }
  }

  // ---------- The chart template ----------

  /** What a reconciliation of the chart template meets: the object, and the API
      calls that fail. A call that fails leaves the cluster as it is. */
  datatype Input = Input(
    ns: string, template: Option<Ref>, hasChartRef: bool, deleting: bool, suspended: bool,
    allowCrossNamespace: bool, getFails: bool, deleteFails: bool, applyFails: bool)

  /** The chart objects the HelmRelease owns, and the field of its status. */
  datatype Charts = Charts(owned: set<Ref>, status: string)

  predicate Allowed(i: Input, r: Ref) {
    i.allowCrossNamespace || i.ns == r.ns
  }

  /** The object that is fetched for a reference: everything that is not an
      OCIRepository is taken for a HelmChart. */
  function Fetched(r: Ref): Ref {
    if r.kind == OCI_REPOSITORY then r else Ref(HELM_CHART, r.ns, r.name)
  }

  datatype Deleted = Deleted(charts: Charts, failed: bool)

  /** reconcileDelete. A status that does not parse cannot be acted upon. */
  function Delete(c: Charts, i: Input): Deleted {
    if i.suspended || c.status == "" then Deleted(c, false)
    else
      var r := Parse(c.status);
      if r.None? || !Allowed(i, r.value) || i.getFails then Deleted(c, true)
      else if Fetched(r.value) in c.owned && i.deleteFails then Deleted(c, true)
      else Deleted(Charts(c.owned - {Fetched(r.value)}, SetChart(None)), false)
  }

  predicate Diverges(c: Charts, i: Input) {
    c.status != "" && (i.template.None? || Parse(c.status) != i.template)
  }

  predicate Supported(r: Ref) {
    r.kind == HELM_CHART || r.kind == OCI_REPOSITORY
  }

  /** Creating or updating the chart, and recording it. */
  function Applied(c: Charts, i: Input): Charts {
    if i.template.None? || !Allowed(i, i.template.value) || !Supported(i.template.value) || i.applyFails then c
    else Charts(c.owned + {i.template.value}, SetChart(i.template))
  }

  /** The part after a diverging chart was dealt with. */
  function Continue(c: Charts, i: Input): Charts {
    if i.hasChartRef && i.template.None? && c.status != "" then Delete(c, i).charts
    else if i.hasChartRef then c
    else Applied(c, i)
  }

  function ReconcileTemplate(c: Charts, i: Input): Charts {
    if Diverges(c, i) || i.deleting then
      var d := Delete(c, i);
      if d.failed || i.deleting then d.charts else Continue(d.charts, i)
    else Continue(c, i)
  }

  /** The only chart object the HelmRelease owns, if any, is the one its status
      names. */
  ghost predicate NoOrphans(c: Charts) {
    && (c.status == "" ==> c.owned == {})
    && (c.status != "" ==>
          && Parse(c.status).Some? && SlashFreeRef(Parse(c.status).value) && Supported(Parse(c.status).value)
          && c.owned <= {Parse(c.status).value})
  }

  ghost predicate WellNamed(i: Input) {
    i.template.Some? ==> SlashFreeRef(i.template.value)
  }

  lemma StatusNotEmpty(r: Ref)
    requires SlashFreeRef(r)
    ensures SetChart(Some(r)) != ""
  {
    RoundTrip(r);
  }

  lemma DeleteKeeps(c: Charts, i: Input)
    requires NoOrphans(c)
    ensures NoOrphans(Delete(c, i).charts)
    ensures !Delete(c, i).failed && !i.suspended ==> Delete(c, i).charts.status == ""
  {
  }

  /** Applying a template keeps the object from having orphans exactly if nothing
      else is left over. */
  lemma AppliedKeeps(c: Charts, i: Input)
    requires NoOrphans(c) && WellNamed(i)
    ensures NoOrphans(Applied(c, i)) <==> (Applied(c, i) == c || c.owned <= {i.template.value})
  {
    if i.template.Some? {
      RoundTrip(i.template.value);
      StatusNotEmpty(i.template.value);
    }
  }

  /** A suspended object whose chart diverges from its template leaves the old
      chart behind. */
  ghost predicate LeavesBehind(c: Charts, i: Input) {
    && i.suspended && !i.deleting && !i.hasChartRef && i.template.Some?
    && Allowed(i, i.template.value) && Supported(i.template.value) && !i.applyFails
    && !(c.owned <= {i.template.value})
  }

  /** One reconciliation of the chart template leaves no orphan, exactly unless
      the object is suspended and its present chart is not the one it applies. */
  lemma TemplateStep(c: Charts, i: Input)
    requires NoOrphans(c) && WellNamed(i)
    ensures NoOrphans(ReconcileTemplate(c, i)) <==> !LeavesBehind(c, i)
  {
    DeleteKeeps(c, i);
    var d := Delete(c, i);
    DeleteKeeps(d.charts, i);
    AppliedKeeps(c, i);
    AppliedKeeps(d.charts, i);
    if i.template.Some? {
      RoundTrip(i.template.value);
      StatusNotEmpty(i.template.value);
    }
  }

  /** An object that was suspended when the name of its chart changed from "a" to
      "b" is left with both. */
  lemma SuspendedLeavesBehind()
    ensures var a, b := Ref(HELM_CHART, "ns", "a"), Ref(HELM_CHART, "ns", "b");
            var c := Charts({a}, SetChart(Some(a)));
            var i := Input("ns", Some(b), false, false, true, false, false, false, false);
            NoOrphans(c) && ReconcileTemplate(c, i).owned == {a, b} && !NoOrphans(ReconcileTemplate(c, i))
  {
    var a, b := Ref(HELM_CHART, "ns", "a"), Ref(HELM_CHART, "ns", "b");
    var c := Charts({a}, SetChart(Some(a)));
    var i := Input("ns", Some(b), false, false, true, false, false, false, false);
    RoundTrip(a);
    RoundTrip(b);
    StatusNotEmpty(a);
    assert b !in c.owned;
    TemplateStep(c, i);
  }

  ghost predicate NothingFails(i: Input) {
    !i.getFails && !i.deleteFails && !i.applyFails
  }

  /** With nothing failing, an object that is not suspended ends up owning exactly
      the chart of its template, and naming it. */
  lemma TemplateIsApplied(c: Charts, i: Input)
    requires NoOrphans(c) && WellNamed(i) && NothingFails(i) && !i.suspended && !i.deleting && !i.hasChartRef
    requires i.template.Some? && i.template.value.kind in {"HelmChart", "OCIRepository"}
    requires i.allowCrossNamespace || i.template.value.ns == i.ns
    requires c.status != "" ==> Allowed(i, Parse(c.status).value)
    ensures ReconcileTemplate(c, i) == Charts({i.template.value}, SetChart(i.template))
  {
    RoundTrip(i.template.value);
    StatusNotEmpty(i.template.value);
  }

  /** With nothing failing, the chart of an object that is deleted, or has no
      template any more, is deleted. */
  lemma ChartIsDeleted(c: Charts, i: Input)
    requires NoOrphans(c) && NothingFails(i) && !i.suspended && (i.deleting || i.template.None?)
    requires c.status != "" ==> Allowed(i, Parse(c.status).value)
    ensures ReconcileTemplate(c, i) == Charts({}, "")
  {
  }

  /** What is named in a status is deleted, and is a HelmChart unless it is said to be
      an OCIRepository. */
  lemma NamedIsDeleted(c: Charts, i: Input, r: Ref)
    requires NothingFails(i) && !i.suspended && i.deleting && Parse(c.status) == Some(r)
    requires i.allowCrossNamespace || r.ns == i.ns
    ensures ReconcileTemplate(c, i) == Charts(c.owned - {if r.kind == "OCIRepository" then r else Ref("HelmChart", r.ns, r.name)}, "")
  {
  }

  /** Charts in other namespaces are neither made nor deleted unless that is
      allowed. */
  lemma OtherNamespacesAlone(c: Charts, i: Input, r: Ref)
    requires !i.allowCrossNamespace && r.ns != i.ns
    ensures r in ReconcileTemplate(c, i).owned <==> r in c.owned
  {
  }

  /** Nothing changes if the object is suspended and deleted, or the calls to read
      and to apply fail. */
  lemma NothingChanges(c: Charts, i: Input)
    requires (i.suspended && i.deleting) || (i.getFails && i.applyFails)
    ensures ReconcileTemplate(c, i) == c
  {
  }

  function ReconcileTemplates(c: Charts, inputs: seq<Input>): Charts {
    if inputs == [] then c
    else ReconcileTemplate(ReconcileTemplates(c, inputs[..|inputs| - 1]), inputs[|inputs| - 1])
  }

  /** While it is not suspended, an object never owns a chart its status does not
      name, however its template changes and whichever API calls fail. */
  lemma {:induction false} NeverOrphans(c: Charts, inputs: seq<Input>)
    requires NoOrphans(c) && forall i | i in inputs :: WellNamed(i) && !i.suspended
    ensures NoOrphans(ReconcileTemplates(c, inputs))
  {
    if inputs != [] {
      NeverOrphans(c, inputs[..|inputs| - 1]);
      TemplateStep(ReconcileTemplates(c, inputs[..|inputs| - 1]), inputs[|inputs| - 1]);
    }
  }

  /** The reconciler for the chart template of one object. */
  class HelmChartTemplate {
    var owned: set<Ref>
    var status: string

    ghost function Value(): Charts
      reads this
    {
      Charts(owned, status)
    }

    constructor ()
      ensures Value() == Charts({}, "") && NoOrphans(Value())
    {
      owned, status := {}, "";
    }

    method ReconcileDelete(i: Input) returns (failed: bool)
      modifies this
      ensures Deleted(Value(), failed) == Delete(old(Value()), i)
    {
      failed := false;
      if !i.suspended && status != "" {
        var ref := Parse(status);
        if ref.None? || !Allowed(i, ref.value) || i.getFails {
          failed := true;
          return;
        }
        var chart := Fetched(ref.value);
        if chart in owned {
          if i.deleteFails {
            failed := true;
            return;
          }
          owned := owned - {chart};
        }
        status := SetChart(None);
      }
    }

    /** Reconciling keeps the object from having orphans while it is not
        suspended. */
    method Reconcile(i: Input)
      modifies this
      ensures Value() == ReconcileTemplate(old(Value()), i)
      ensures old(NoOrphans(Value())) && WellNamed(i) && !i.suspended ==> NoOrphans(Value())
    {
      ghost var before := Value();
      if NoOrphans(before) && WellNamed(i) {
        TemplateStep(before, i);
      }
      if (status != "" && (i.template.None? || Parse(status) != i.template)) || i.deleting {
        var failed := ReconcileDelete(i);
        if failed || i.deleting {
          return;
        }
      }
      if i.hasChartRef && i.template.None? && status != "" {
        var _ := ReconcileDelete(i);
        return;
      }
      if i.hasChartRef {
        return;
      }
      if i.template.Some? && Allowed(i, i.template.value) && Supported(i.template.value) && !i.applyFails {
        owned := owned + {i.template.value};
        status := SetChart(i.template);
      }
    }
  }
}
