/** The dashboard script (static/dashboard.js) as one object: the module variables it
    reassigns (allPatients, the chart instances), the form and table it rewrites, and
    the browser state it touches (the stored token, the location, the spinner, the
    message box, the requests it sends). Network answers and user confirmations are
    parameters of the methods that await them. */
module Dashboard {
  import opened Text
  import opened Records
  import opened Validators
  import opened CommaLists
  import opened Fetch
  import opened Search
  import opened Charts

  /** The message box: its text and whether it is styled as an error. */
  datatype Notice = Notice(text: string, isError: bool)

  datatype FormField = NameField | AgeField | GenderField | DepartmentField | PhoneField | EmailField

  /** What patientForm.reset() leaves in the inputs. */
  const BlankInputs := FormInputs("", "", "", "", "", "", "", "")

  const AddTitle := "Add New Patient"
  const EditTitle := "Update Patient"
  const AddButton := "Save Patient"
  const LoadPatientsFailed := "Failed to load patients. Check console for details."
  const EditLoadFailed := "Failed to load patient for edit."
  const Added := "Patient added successfully!"
  const Updated := "Patient updated successfully!"
  const Deleted := "Patient deleted successfully!"
  const LoggedOut := "Logged out successfully."
  const PatientsUrl := "/patients"

  /** The live validator wired to one input. */
  function FieldVerdict(f: FormField, inputs: FormInputs): Verdict {
    match f
    case NameField => ValidateName(inputs.name)
    case AgeField => ValidateAge(inputs.age)
    case GenderField => ValidateGender(inputs.gender)
    case DepartmentField => ValidateDepartment(inputs.department)
    case PhoneField => ValidatePhone(inputs.phone)
    case EmailField => ValidateEmail(inputs.email)
  }

  /** The patientData object handlePatientFormSubmit builds from the inputs: the text
      fields without surrounding whitespace, the age as parseInt reads it, the gender as
      chosen, and each list as its cleaned comma-separated entries. */
  function Payload(inputs: FormInputs): (r: FormPayload)
    ensures r.name == Trim(inputs.name) && r.department == Trim(inputs.department)
    ensures r.phone == Trim(inputs.phone) && r.email == Trim(inputs.email)
    ensures IsTrimmed(r.name) && IsTrimmed(r.department) && IsTrimmed(r.phone) && IsTrimmed(r.email)
    ensures ValidateName(inputs.name).Accept? ==> r.name != "" && !HasDigit(r.name)
    ensures r.age == ParseInt(inputs.age) && r.gender == inputs.gender
    ensures forall k :: 0 <= k < |r.prescriptions| ==> IsListItem(r.prescriptions[k])
    ensures forall k :: 0 <= k < |r.history| ==> IsListItem(r.history[k])
  {
    FormPayload(
      Trim(inputs.name),
      ParseInt(inputs.age),
      inputs.gender,
      Trim(inputs.department),
      Trim(inputs.phone),
      Trim(inputs.email),
      ParseList(inputs.prescriptions),
      ParseList(inputs.history))
  }

  /** The JSON body of a request: the payload of the form it carries. */
  function Body(r: Request): (b: Option<FormPayload>)
    ensures b.Some? <==> r.form.Some?
    ensures b.Some? ==> b.value == Payload(r.form.value)
  {
    if r.form.Some? then Some(Payload(r.form.value)) else None
  }

  /** The create/update choice: a non-empty hidden id means PUT to /patients/{id},
      an empty one POST to /patients; both carry the payload of the inputs. */
  function SubmitRequest(patientId: string, inputs: FormInputs): (r: Request)
    ensures r.form == Some(inputs)
    ensures patientId != "" ==> r.verb == PUT && r.url == PatientsUrl + "/" + patientId
    ensures patientId == "" ==> r.verb == POST && r.url == PatientsUrl
  {
    if patientId != "" then Request(PUT, PatientsUrl + "/" + patientId, Some(inputs))
    else Request(POST, PatientsUrl, Some(inputs))
  }

  function DeleteRequest(id: string): Request {
    Request(DELETE, PatientsUrl + "/" + id, None)
  }

  /** What editPatient writes into the inputs for a fetched record: missing parts become
      empty strings, lists are joined with ", ". The age and the lists read back as the
      record's own values. */
  function EditInputs(p: Patient<string>): (r: FormInputs)
    ensures r.name == p.name.GetOr("") && r.gender == p.gender.GetOr("") && r.department == p.department.GetOr("")
    ensures p.contactInfo.None? ==> r.phone == "" && r.email == ""
    ensures p.contactInfo.Some? ==> r.phone == p.contactInfo.value.phone.GetOr("") && r.email == p.contactInfo.value.email.GetOr("")
    ensures p.age.Some? ==> ParseInt(r.age) == p.age
    ensures p.age.None? ==> r.age == ""
    ensures p.prescriptions.None? ==> r.prescriptions == ""
    ensures p.prescriptions.Some? && (forall k :: 0 <= k < |p.prescriptions.value| ==> IsListItem(p.prescriptions.value[k])) ==>
      ParseList(r.prescriptions) == p.prescriptions.value
    ensures p.history.None? ==> r.history == ""
    ensures p.history.Some? && (forall k :: 0 <= k < |p.history.value| ==> IsListItem(p.history.value[k])) ==>
      ParseList(r.history) == p.history.value
  {
    ReadsBack(p.age, p.prescriptions);
    ReadsBack(p.age, p.history);
    var contact := p.contactInfo.GetOr(Contact(None, None));
    FormInputs(
      p.name.GetOr(""),
      if p.age.Some? then IntToString(p.age.value) else "",
      p.gender.GetOr(""),
      p.department.GetOr(""),
      contact.phone.GetOr(""),
      contact.email.GetOr(""),
      if p.prescriptions.Some? then FormatList(p.prescriptions.value) else "",
      if p.history.Some? then FormatList(p.history.value) else "")
  }

  lemma ReadsBack(age: Option<int>, xs: Option<seq<string>>)
    ensures age.Some? ==> ParseInt(IntToString(age.value)) == age
    ensures xs.Some? && (forall k :: 0 <= k < |xs.value| ==> IsListItem(xs.value[k])) ==>
      ParseList(FormatList(xs.value)) == xs.value
  {
    if age.Some? {
      ParseIntOfString(age.value);
    }
    if xs.Some? && (forall k :: 0 <= k < |xs.value| ==> IsListItem(xs.value[k])) {
      ParseFormat(xs.value);
    }
  }

  /** The record is in the shape the form itself produces: trimmed text fields and list
      entries that are trimmed, non-empty and comma-free. */
  predicate FormShaped(p: Patient<string>) {
    && p.name.Some? && IsTrimmed(p.name.value)
    && p.age.Some?
    && p.gender.Some?
    && p.department.Some? && IsTrimmed(p.department.value)
    && p.contactInfo.Some? && p.contactInfo.value.phone.Some? && p.contactInfo.value.email.Some?
    && IsTrimmed(p.contactInfo.value.phone.value) && IsTrimmed(p.contactInfo.value.email.value)
    && p.prescriptions.Some? && (forall k :: 0 <= k < |p.prescriptions.value| ==> IsListItem(p.prescriptions.value[k]))
    && p.history.Some? && (forall k :: 0 <= k < |p.history.value| ==> IsListItem(p.history.value[k]))
  }

  /** Opening a record for editing and saving it unchanged sends back exactly what the
      record holds. */
  lemma EditThenSaveKeepsRecord(p: Patient<string>)
    requires FormShaped(p)
    ensures var q := Payload(EditInputs(p));
      && q.name == p.name.value && q.age == p.age && q.gender == p.gender.value
      && q.department == p.department.value
      && q.phone == p.contactInfo.value.phone.value && q.email == p.contactInfo.value.email.value
      && q.prescriptions == p.prescriptions.value && q.history == p.history.value
  {
    TrimIdentity(p.name.value);
    TrimIdentity(p.department.value);
    TrimIdentity(p.contactInfo.value.phone.value);
    TrimIdentity(p.contactInfo.value.email.value);
    ParseIntOfString(p.age.value);
    ParseFormat(p.prescriptions.value);
    ParseFormat(p.history.value);
  }

  class DashboardPage {
    // Browser state.
    var token: Option<string>
    var location: string
    var redirectScheduled: bool
    var spinnerVisible: bool
    var notice: Option<Notice>
    var sent: seq<Request>
    var prompts: nat

    // The script's own state and the parts of the page it rewrites.
    var allPatients: seq<Patient<string>>
    var rows: seq<Row>
    var patientIdInput: string
    var inputs: FormInputs
    var formTitle: string
    var saveLabel: string
    var cancelVisible: bool
    var fieldErrors: map<FormField, string>
    var genderChart: Option<Chart>
    var departmentChart: Option<Chart>
    var visitorsChart: Option<Chart>

    /** The page as it is after loading, before the initial fetches: create mode, an
        empty cache, no charts. */
    constructor (storedToken: Option<string>, path: string)
      ensures token == storedToken && location == path && !redirectScheduled && !spinnerVisible
      ensures notice == None && sent == [] && prompts == 0
      ensures allPatients == [] && rows == [] && patientIdInput == "" && inputs == BlankInputs
      ensures formTitle == AddTitle && saveLabel == AddButton && !cancelVisible && fieldErrors == map[]
      ensures genderChart == None && departmentChart == None && visitorsChart == None
    {
      token := storedToken;
      location := path;
      redirectScheduled := false;
      spinnerVisible := false;
      notice := None;
      sent := [];
      prompts := 0;
      allPatients := [];
      rows := [];
      patientIdInput := "";
      inputs := BlankInputs;
      formTitle := AddTitle;
      saveLabel := AddButton;
      cancelVisible := false;
      fieldErrors := map[];
      genderChart := None;
      departmentChart := None;
      visitorsChart := None;
    }

    /** The form's mode is carried by the hidden id alone. */
    predicate InEditMode()
      reads this
    {
      patientIdInput != ""
    }

    /** What a fetchData call with the given outcome does to the browser state, apart
        from the message box: the request is sent only when a token is stored; the
        spinner stays shown only on the no-token path, which navigates to the login
        page; 401/403 schedules the redirect. */
    twostate predicate FetchEffects<T>(req: Request, out: Outcome<T>)
      reads this
    {
      && sent == old(sent) + (if HasToken(token) then [req] else [])
      && spinnerVisible == out.NoToken?
      && location == (if out.NoToken? then "/" else old(location))
      && redirectScheduled == (old(redirectScheduled) || out.Unauthorized?)
    }

    /** fetchData: sends the request only when a token is stored; the spinner stays
        shown only on the no-token path; 401/403 shows the session message and
        schedules the redirect but keeps the token; any other failure shows
        "Error: <message>" and is rethrown (Failed). */
    method FetchData<T>(req: Request, resp: HttpResponse<T>) returns (out: Outcome<T>)
      modifies this`sent, this`spinnerVisible, this`location, this`redirectScheduled, this`notice
      ensures out == Classify(token, resp)
      ensures FetchEffects(req, out)
      ensures notice == match out
        case Unauthorized => Some(Notice(SessionExpired, true))
        case Failed(m) => Some(Notice("Error: " + m, true))
        case _ => old(notice)
    {
      spinnerVisible := true;
      if !HasToken(token) {
        location := "/";
        return NoToken;
      }
      sent := sent + [req];
      out := Classify(token, resp);
      spinnerVisible := false;
      match out {
        case Unauthorized =>
          notice := Some(Notice(SessionExpired, true));
          redirectScheduled := true;
        case Failed(m) =>
          notice := Some(Notice("Error: " + m, true));
        case _ =>
      }
    }

    /** A live validation handler: shows the field's message or clears it. */
    method ValidateField(f: FormField) returns (ok: bool)
      modifies this`fieldErrors
      ensures ok == FieldVerdict(f, inputs).Accept?
      ensures fieldErrors == if ok then old(fieldErrors) - {f} else old(fieldErrors)[f := FieldVerdict(f, inputs).message]
    {
      var v := FieldVerdict(f, inputs);
      ok := v.Accept?;
      if ok {
        fieldErrors := fieldErrors - {f};
      } else {
        fieldErrors := fieldErrors[f := v.message];
      }
    }

    /** filterPatients: clears the table, then draws the prompt, the no-match row, or one
        row per matching patient. ok is false when the filter throws on a patient
        without a name, leaving the table empty. */
    method FilterPatients(searchInput: string) returns (ok: bool)
      modifies this`rows
      ensures ok == SearchRows(allPatients, searchInput).Some?
      ensures rows == SearchRows(allPatients, searchInput).GetOr([])
    {
      rows := [];
      var term := SearchTerm(searchInput);
      if term == "" {
        rows := [SearchPrompt];
        return true;
      }
      if !AllNamed(allPatients) {
        return false;
      }
      var filtered := Filter(allPatients, term);
      if filtered == [] {
        rows := [NoMatches];
        return true;
      }
      var drawn := DrawRows(filtered);
      rows := drawn;
      ok := true;
    }

    /** The forEach that appends one rendered row per patient. */
    static method DrawRows(ps: seq<Patient<string>>) returns (drawn: seq<Row>)
      ensures drawn == RenderRows(ps)
    {
      drawn := [];
      var i := 0;
      while i < |ps|
        invariant 0 <= i <= |ps|
        invariant drawn == RenderRows(ps[..i])
      {
        assert ps[..i + 1] == ps[..i] + [ps[i]];
        drawn := drawn + [RenderRow(ps[i])];
        i := i + 1;
      }
      assert ps[..i] == ps;
    }

    /** loadPatients: on data the cache is replaced wholesale and the table shows the
        prompt or the current search; a thrown error (from the fetch or from the filter)
        ends in the load-failure message; undefined leaves the cache and the table as
        they were. */
    method LoadPatients(searchInput: string, resp: HttpResponse<seq<Patient<string>>>)
      modifies this`sent, this`spinnerVisible, this`location, this`redirectScheduled, this`notice
      modifies this`allPatients, this`rows
      ensures var out := Classify(token, resp);
        && FetchEffects(Request(GET, PatientsUrl, None), out)
        && allPatients == (if out.Data? then out.value else old(allPatients))
        && rows == (if out.Data? then SearchRows(out.value, searchInput).GetOr([]) else old(rows))
        && notice == match out
             case Unauthorized => Some(Notice(SessionExpired, true))
             case Failed(_) => Some(Notice(LoadPatientsFailed, true))
             case Data(ps) => if SearchRows(ps, searchInput).None? then Some(Notice(LoadPatientsFailed, true)) else old(notice)
             case NoToken => old(notice)
    {
      var out := FetchData(Request(GET, PatientsUrl, None), resp);
      match out {
        case Data(ps) =>
          allPatients := ps;
          if Trim(searchInput) == "" {
            rows := [SearchPrompt];
          } else {
            var ok := FilterPatients(searchInput);
            if !ok {
              notice := Some(Notice(LoadPatientsFailed, true));
            }
          }
        case Failed(_) =>
          notice := Some(Notice(LoadPatientsFailed, true));
        case _ =>
      }
    }

    /** resetFormForAdd: back to create mode with blank inputs and no field errors. */
    method ResetFormForAdd()
      modifies this`inputs, this`patientIdInput, this`formTitle, this`saveLabel, this`cancelVisible, this`fieldErrors
      ensures !InEditMode() && inputs == BlankInputs
      ensures formTitle == AddTitle && saveLabel == AddButton && !cancelVisible && fieldErrors == map[]
    {
      inputs := BlankInputs;
      patientIdInput := "";
      formTitle := AddTitle;
      saveLabel := AddButton;
      cancelVisible := false;
      fieldErrors := map[];
    }

    /** handlePatientFormSubmit: PUT in edit mode, POST in create mode. Unless the fetch
        throws, the success message is shown and the form returns to create mode (this
        includes the no-token and 401/403 paths, where fetchData returns undefined); a
        thrown error shows the save failure and keeps the mode and the inputs. */
    method Submit<T>(resp: HttpResponse<T>)
      modifies this`sent, this`spinnerVisible, this`location, this`redirectScheduled, this`notice
      modifies this`inputs, this`patientIdInput, this`formTitle, this`saveLabel, this`cancelVisible, this`fieldErrors
      ensures var req := SubmitRequest(old(patientIdInput), old(inputs));
        var out := Classify(token, resp);
        && FetchEffects(req, out)
        && (out.Failed? ==>
              && patientIdInput == old(patientIdInput) && inputs == old(inputs)
              && formTitle == old(formTitle) && saveLabel == old(saveLabel) && cancelVisible == old(cancelVisible)
              && notice == Some(Notice("Failed to save patient: " + out.message, true)))
        && (!out.Failed? ==>
              && !InEditMode() && inputs == BlankInputs
              && formTitle == AddTitle && saveLabel == AddButton && !cancelVisible
              && notice == Some(Notice(if old(patientIdInput) != "" then Updated else Added, false)))
      ensures fieldErrors == map[]
    {
      var editing := patientIdInput != "";
      var req := SubmitRequest(patientIdInput, inputs);
      fieldErrors := map[];
      var out := FetchData(req, resp);
      if out.Failed? {
        notice := Some(Notice("Failed to save patient: " + out.message, true));
      } else {
        notice := Some(Notice(if editing then Updated else Added, false));
        ResetFormForAdd();
      }
    }

    /** editPatient: fetches the record; on data the form enters edit mode bound to the
        record's `_id`, with the inputs filled from it; a thrown error shows the load
        failure and leaves the form alone. */
    method EditPatient(id: string, resp: HttpResponse<Patient<string>>)
      modifies this`sent, this`spinnerVisible, this`location, this`redirectScheduled, this`notice
      modifies this`inputs, this`patientIdInput, this`formTitle, this`saveLabel, this`cancelVisible, this`fieldErrors
      ensures var out := Classify(token, resp);
        && FetchEffects(Request(GET, PatientsUrl + "/" + id, None), out)
        && (out.Data? ==>
              && patientIdInput == out.value.id && inputs == EditInputs(out.value)
              && formTitle == EditTitle && saveLabel == EditTitle && cancelVisible && fieldErrors == map[])
        && (!out.Data? ==>
              && patientIdInput == old(patientIdInput) && inputs == old(inputs) && formTitle == old(formTitle)
              && saveLabel == old(saveLabel) && cancelVisible == old(cancelVisible) && fieldErrors == old(fieldErrors))
        && notice == match out
             case Unauthorized => Some(Notice(SessionExpired, true))
             case Failed(_) => Some(Notice(EditLoadFailed, true))
             case _ => old(notice)
    {
      var out := FetchData(Request(GET, PatientsUrl + "/" + id, None), resp);
      match out {
        case Data(p) =>
          FillForm(p);
        case Failed(_) =>
          notice := Some(Notice(EditLoadFailed, true));
        case _ =>
      }
    }

    /** The form in edit mode for a fetched record: bound to its `_id`, inputs filled
        from it, the update labels and the cancel button shown, no field errors. */
    method FillForm(p: Patient<string>)
      modifies this`inputs, this`patientIdInput, this`formTitle, this`saveLabel, this`cancelVisible, this`fieldErrors
      ensures patientIdInput == p.id && inputs == EditInputs(p)
      ensures formTitle == EditTitle && saveLabel == EditTitle && cancelVisible && fieldErrors == map[]
    {
      patientIdInput := p.id;
      inputs := EditInputs(p);
      formTitle := EditTitle;
      saveLabel := EditTitle;
      cancelVisible := true;
      fieldErrors := map[];
    }

    /** deletePatient: one confirmation prompt per call; declined, nothing is sent and
        nothing else changes; accepted, exactly one DELETE for the id is sent (when a
        token is stored) and the outcome is reported. */
    method DeletePatient<T>(id: string, confirmed: bool, resp: HttpResponse<T>)
      modifies this`sent, this`spinnerVisible, this`location, this`redirectScheduled, this`notice, this`prompts
      ensures prompts == old(prompts) + 1
      ensures !confirmed ==>
        && sent == old(sent) && notice == old(notice) && spinnerVisible == old(spinnerVisible)
        && location == old(location) && redirectScheduled == old(redirectScheduled)
      ensures confirmed ==> var out := Classify(token, resp);
        && FetchEffects(DeleteRequest(id), out)
        && notice == Some(if out.Failed? then Notice("Failed to delete patient: " + out.message, true)
                          else Notice(Deleted, false))
    {
      prompts := prompts + 1;
      if confirmed {
        var out := FetchData(DeleteRequest(id), resp);
        if out.Failed? {
          notice := Some(Notice("Failed to delete patient: " + out.message, true));
        } else {
          notice := Some(Notice(Deleted, false));
        }
      }
    }

    /** loadChart for a distribution: on data the canvas's chart is replaced by a pie of
        the groups; a thrown error shows the failure (its label is still empty at that
        point) and keeps the old chart; undefined keeps it silently. */
    method LoadDistributionChart(dist: Distribution, resp: HttpResponse<seq<Group>>)
      modifies this`sent, this`spinnerVisible, this`location, this`redirectScheduled, this`notice
      modifies this`genderChart, this`departmentChart
      ensures var out := Classify(token, resp);
        && FetchEffects(Request(GET, dist.Url(), None), out)
        && (out.Data? && dist == GenderDistribution ==> genderChart == Some(DistributionChart(dist, out.value)))
        && (out.Data? && dist == DepartmentDistribution ==> departmentChart == Some(DistributionChart(dist, out.value)))
        && (!out.Data? || dist == DepartmentDistribution ==> genderChart == old(genderChart))
        && (!out.Data? || dist == GenderDistribution ==> departmentChart == old(departmentChart))
        && notice == match out
             case Unauthorized => Some(Notice(SessionExpired, true))
             case Failed(_) => Some(Notice("Failed to load  chart.", true))
             case _ => old(notice)
    {
      var out := FetchData(Request(GET, dist.Url(), None), resp);
      match out {
        case Data(groups) =>
          var chart := DistributionChart(dist, groups);
          if dist == GenderDistribution {
            genderChart := Some(chart);
          } else {
            departmentChart := Some(chart);
          }
        case Failed(_) =>
          notice := Some(Notice("Failed to load  chart.", true));
        case _ =>
      }
    }

    /** loadChart for the visitor ranking: the same, as a bar chart. */
    method LoadVisitorsChart(resp: HttpResponse<seq<Visitor<string>>>)
      modifies this`sent, this`spinnerVisible, this`location, this`redirectScheduled, this`notice
      modifies this`visitorsChart
      ensures var out := Classify(token, resp);
        && FetchEffects(Request(GET, VisitorsUrl, None), out)
        && visitorsChart == (if out.Data? then Some(VisitorsChart(out.value)) else old(visitorsChart))
        && notice == match out
             case Unauthorized => Some(Notice(SessionExpired, true))
             case Failed(_) => Some(Notice("Failed to load  chart.", true))
             case _ => old(notice)
    {
      var out := FetchData(Request(GET, VisitorsUrl, None), resp);
      match out {
        case Data(vs) =>
          visitorsChart := Some(VisitorsChart(vs));
        case Failed(_) =>
          notice := Some(Notice("Failed to load  chart.", true));
        case _ =>
      }
    }

    /** The logout button: removes the token, confirms, and schedules the redirect. */
    method Logout()
      modifies this`token, this`notice, this`redirectScheduled
      ensures token == None && redirectScheduled && notice == Some(Notice(LoggedOut, false))
    {
      token := None;
      notice := Some(Notice(LoggedOut, false));
      redirectScheduled := true;
    }
  }
}
