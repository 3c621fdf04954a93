/** The values exchanged between the dashboard and the server: the patient document,
    the aggregate rows, and the shape of a JSON request key. */
module Records {

  datatype Option<+T> = None | Some(value: T) {
    function GetOr(default: T): T {
      match this
      case None => default
      case Some(v) => v
    }
  }

  /** One key of a JSON request body: missing, present with null, or present with a
      value. Python's data.get(k) reads the first two alike as None, while
      data.get(k, default) gives the default only for a missing key. */
  datatype Field<+T> = Absent | Null | Present(value: T) {
    /** data.get(k) */
    function Get(): Option<T> {
      if Present? then Some(value) else None
    }

    /** data.get(k, default) */
    function GetOrDefault(default: T): Option<T> {
      match this
      case Absent => Some(default)
      case Null => None
      case Present(v) => Some(v)
    }
  }

  datatype Contact = Contact(phone: Option<string>, email: Option<string>)

  /** A patient document. Id is the type of its `_id`: an ObjectId inside the
      collection, the ObjectId's hex string once serialised for the dashboard.
      None stands for a key that is missing or null. */
  datatype Patient<Id> = Patient(
    id: Id,
    patientId: Option<string>,
    name: Option<string>,
    age: Option<int>,
    gender: Option<string>,
    department: Option<string>,
    contactInfo: Option<Contact>,
    prescriptions: Option<seq<string>>,
    history: Option<seq<string>>,
    visitDates: Option<seq<string>>,
    createdAt: Option<int>)

  /** One row of a distribution: the grouped value (null for a missing one) and how
      many patients have it. */
  datatype Group = Group(key: Option<string>, count: nat)

  /** One row of the frequent-visitors ranking. */
  datatype Visitor<Id> = Visitor(id: Id, name: Option<string>, patientId: Option<string>, visitCount: nat)

  /** The visible inputs of the patient form, as strings. */
  datatype FormInputs = FormInputs(
    name: string, age: string, gender: string, department: string,
    phone: string, email: string, prescriptions: string, history: string)

  /** The JSON body the patient form submits; age is null when parseInt gives NaN. */
  datatype FormPayload = FormPayload(
    name: string,
    age: Option<int>,
    gender: string,
    department: string,
    phone: string,
    email: string,
    prescriptions: seq<string>,
    history: seq<string>)

  datatype ContactRequest = ContactRequest(phone: Field<string>, email: Field<string>)

  /** A patient request body as the server reads it, key by key. */
  datatype PatientRequest = PatientRequest(
    name: Field<string>,
    age: Field<int>,
    gender: Field<string>,
    department: Field<string>,
    contactInfo: Field<ContactRequest>,
    prescriptions: Field<seq<string>>,
    history: Field<seq<string>>,
    visitDates: Field<seq<string>>)

  /** The dashboard's payload as it arrives at the server: every key present, no
      visit_dates. */
  function AsRequest(p: FormPayload): PatientRequest {
    PatientRequest(
      Present(p.name),
      if p.age.Some? then Present(p.age.value) else Null,
      Present(p.gender),
      Present(p.department),
      Present(ContactRequest(Present(p.phone), Present(p.email))),
      Present(p.prescriptions),
      Present(p.history),
      Absent)
  }
}
