/** Properties that join the dashboard (static/dashboard.js) and the server (app.py):
    what the form sends is what the routes accept, and what the routes answer is what
    the dashboard draws. */
module EndToEnd {
  import opened Text
  import opened Records
  import opened ObjectIds
  import Analytics
  import opened Charts
  import opened Fetch
  import opened Dashboard
  import opened Server

  /** A form that every live validator accepts, submitted in create mode, is inserted
      by add_patient (as long as no stored id has already outgrown $toInt): the server's
      required-field check never refuses what the dashboard lets through. */
  lemma ValidFormIsAdded(ps: seq<Patient<ObjectId>>, inputs: FormInputs, now: int, oid: ObjectId)
    requires forall f :: FieldVerdict(f, inputs).Accept?
    requires !IdOverflows(ps)
    ensures var req := SubmitRequest("", inputs);
      req.verb == POST && DecideAdd(ps, AsRequest(Body(req).value), now, oid).AddInsert?
  {
    assert FieldVerdict(NameField, inputs).Accept?;
    assert FieldVerdict(AgeField, inputs).Accept?;
    assert FieldVerdict(Dashboard.GenderField, inputs).Accept?;
    assert FieldVerdict(Dashboard.DepartmentField, inputs).Accept?;
    AddNeverConflicts(ps, AsRequest(Payload(inputs)), now, oid);
  }

  /** Opening a listed record for editing and saving it unchanged matches that very
      record and leaves it exactly as it was, when the record is in the form's own shape. */
  lemma EditThenSaveIsNoOp(ps: seq<Patient<ObjectId>>, i: nat)
    requires UniqueIds(ps) && i < |ps| && ps[i].id.value < Pow16(HexLength)
    requires FormShaped(SerializeAll(ps)[i])
    ensures
      var shown := SerializeAll(ps)[i];
      DecideUpdate(ps, shown.id, AsRequest(Payload(EditInputs(shown)))) == UpdateAt(i, ps[i])
  {
    ParseToHex(ps[i].id);
    IndexOfUnique(ps, i);
    SavedFormChangesNothing(ps[i]);
  }

  /** The $set built from the edit form of a record, saved unchanged, is the record. */
  lemma SavedFormChangesNothing(p: Patient<ObjectId>)
    requires FormShaped(Serialize(p))
    ensures ApplyChanges(p, ChangesOf(AsRequest(Payload(EditInputs(Serialize(p))))).value) == p
  {
    EditThenSaveKeepsRecord(Serialize(p));
  }

  /** The distribution a chart slot asks for. */
  function AttributeOf(d: Charts.Distribution): Analytics.Attribute {
    match d
    case GenderDistribution => Analytics.GenderField
    case DepartmentDistribution => Analytics.DepartmentField
  }

  lemma {:induction false} SumOfCounts(gs: seq<Group>, data: seq<int>)
    requires |data| == |gs| && forall i :: 0 <= i < |gs| ==> data[i] == gs[i].count
    ensures Sum(data) == Analytics.TotalCount(gs)
  {
    if gs != [] {
      SumOfCounts(gs[1..], data[1..]);
    }
  }

  /** The pie chart drawn from a distribution has one slice per distinct value, in
      ascending order, and its slices add up to the number of patients. */
  lemma DistributionChartTotal<Id>(docs: seq<Patient<Id>>, d: Charts.Distribution)
    ensures
      var chart := DistributionChart(d, Analytics.Distribution(docs, AttributeOf(d)));
      && Sum(chart.data) == |docs|
      && forall i, j :: 0 <= i < j < |chart.labels| ==> Analytics.KeyLess(chart.labels[i], chart.labels[j])
  {
    var gs := Analytics.Distribution(docs, AttributeOf(d));
    SumOfCounts(gs, DistributionChart(d, gs).data);
  }
}
