/** loadChart's data mapping (static/dashboard.js): aggregate rows become a chart's
    labels and values, and the chart kind is picked per canvas. */
module Charts {
  import opened Records

  /** The three canvases, each with its own chart instance variable. */
  datatype ChartSlot = GenderSlot | DepartmentSlot | VisitorsSlot

  /** The two distribution endpoints and the canvas each one feeds. */
  datatype Distribution = GenderDistribution | DepartmentDistribution {
    function Slot(): ChartSlot {
      if GenderDistribution? then GenderSlot else DepartmentSlot
    }

    function Url(): string {
      if GenderDistribution? then "/analytics/gender-distribution" else "/analytics/department-distribution"
    }
  }

  const VisitorsUrl := "/analytics/frequent-visitors"

  datatype ChartType = Pie | Bar

  /** What a chart instance is built from: its type, dataset label, x labels and values. */
  datatype Chart = Chart(kind: ChartType, title: string, labels: seq<Option<string>>, data: seq<int>)

  /** Distributions are pies, the visitor ranking is a bar chart. */
  function KindFor(slot: ChartSlot): (k: ChartType)
    ensures (k == Pie) <==> (slot != VisitorsSlot)
  {
    match slot
    case GenderSlot => Pie
    case DepartmentSlot => Pie
    case VisitorsSlot => Bar
  }

  function TitleFor(slot: ChartSlot): string {
    match slot
    case GenderSlot => "Gender Distribution"
    case DepartmentSlot => "Department Distribution"
    case VisitorsSlot => "Visit Count"
  }

  /** labels = data.map(d => d._id); data = data.map(d => d.count) */
  function DistributionChart(dist: Distribution, groups: seq<Group>): (c: Chart)
    ensures c.kind == Pie && c.title == TitleFor(dist.Slot())
    ensures |c.labels| == |groups| && |c.data| == |groups|
    ensures forall i :: 0 <= i < |groups| ==> c.labels[i] == groups[i].key && c.data[i] == groups[i].count
  {
    Chart(KindFor(dist.Slot()), TitleFor(dist.Slot()),
          seq(|groups|, i requires 0 <= i < |groups| => groups[i].key),
          seq(|groups|, i requires 0 <= i < |groups| => groups[i].count))
  }

  /** How a template literal shows a missing value. */
  function Show(v: Option<string>): string {
    if v.Some? then v.value else "undefined"
  }

  /** The bar label: the visitor's name, then its patient_id in parentheses. */
  function VisitorLabel(v: Visitor<string>): string {
    Show(v.name) + " (" + Show(v.patientId) + ")"
  }

  /** labels from name and patient_id; data = data.map(d => d.visit_count) */
  function VisitorsChart(vs: seq<Visitor<string>>): (c: Chart)
    ensures c.kind == Bar && c.title == TitleFor(VisitorsSlot)
    ensures |c.labels| == |vs| && |c.data| == |vs|
    ensures forall i :: 0 <= i < |vs| ==> c.labels[i] == Some(VisitorLabel(vs[i])) && c.data[i] == vs[i].visitCount
  {
    Chart(KindFor(VisitorsSlot), TitleFor(VisitorsSlot),
          seq(|vs|, i requires 0 <= i < |vs| => Some(VisitorLabel(vs[i]))),
          seq(|vs|, i requires 0 <= i < |vs| => vs[i].visitCount as int))
  }

  function Sum(xs: seq<int>): int {
    if xs == [] then 0 else xs[0] + Sum(xs[1..])
  }
}
