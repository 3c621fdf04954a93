/** The Flask application's patient routes (app.py) over an in-memory store: the two
    collections, the checks every protected route runs before its handler, and what
    each route answers and writes. A route receives its request already decoded: the
    verified access token, the id string from the path, the JSON body. */
module Server {
  import opened Text
  import opened Records
  import opened ObjectIds
  import opened PatientIds
  import opened Analytics
  import opened Auth

  /** A route's answer: a JSON value with its status, a {"msg": ...} body with its
      status, or an exception that escapes the handler (Flask's 500 page). */
  datatype Reply<T> = Json(status: int, value: T) | Msg(status: int, msg: string) | ServerError

  const UserNotFound := "User not found"
  const PatientNotFound := "Patient not found"
  const MissingFields := "Missing required patient fields"
  const InvalidFormat := "Invalid patient ID format"
  const PatientDeleted := "Patient deleted successfully"

  // ---------------------------------------------------------------------------------
  // jwt_required's user lookup, then role_required
  // ---------------------------------------------------------------------------------

  /** What happens before a protected handler runs: None lets it run. The user lookup
      answers 401 for a token whose user no longer exists; the role gate follows. */
  function Guard<T>(users: map<string, User>, token: AccessToken, required: seq<string>): (r: Option<Reply<T>>)
    ensures r.None? <==> token.identity in users && RoleGate(required, RolesClaim(token)) == Allowed
    ensures token.identity !in users ==> r == Some(Msg(401, UserNotFound))
    ensures r.Some? && token.identity in users ==>
      r.value == (if RoleGate(required, RolesClaim(token)) == Denied then Msg(403, PermissionDenied) else ServerError)
  {
    if token.identity !in users then Some(Msg(401, UserNotFound))
    else
      match RoleGate(required, RolesClaim(token))
      case Allowed => None
      case Denied => Some(Msg(403, PermissionDenied))
      case GateCrash => Some(ServerError)
  }

  /** A token admitted to the doctor/admin routes is admitted to the staff routes. */
  lemma GuardInclusion<T>(users: map<string, User>, token: AccessToken)
    ensures Guard<T>(users, token, ClinicianRoles).None? ==> Guard<T>(users, token, StaffRoles).None?
  {
    if token.roles.Some? {
      GateInclusion(token.roles.value);
    }
  }

  // ---------------------------------------------------------------------------------
  // Finding a document by its ObjectId
  // ---------------------------------------------------------------------------------

  predicate UniqueIds(ps: seq<Patient<ObjectId>>) {
    forall i, j :: 0 <= i < j < |ps| ==> ps[i].id != ps[j].id
  }

  /** find_one({"_id": oid}): the position of the first document with that id. */
  function IndexOf(ps: seq<Patient<ObjectId>>, oid: ObjectId): (r: Option<nat>)
    ensures r.Some? ==> r.value < |ps| && ps[r.value].id == oid
    ensures r.Some? ==> forall j :: 0 <= j < r.value ==> ps[j].id != oid
    ensures r.None? ==> forall j :: 0 <= j < |ps| ==> ps[j].id != oid
  {
    if ps == [] then None
    else if ps[0].id == oid then Some(0)
    else
      var r := IndexOf(ps[1..], oid);
      if r.Some? then Some(r.value + 1) else None
  }

  /** With unique ids, the document found is the only one with that id. */
  lemma IndexOfUnique(ps: seq<Patient<ObjectId>>, i: nat)
    requires UniqueIds(ps) && i < |ps|
    ensures IndexOf(ps, ps[i].id) == Some(i)
  {
  }

  /** The str(ObjectId) message of bson's InvalidId (repr is written as plain quotes). */
  function InvalidIdReason(s: string): string {
    "'" + s + "' is not a valid ObjectId, it must be a 12-byte input or a 24-character hex string"
  }

  // ---------------------------------------------------------------------------------
  // get_patients and get_patient
  // ---------------------------------------------------------------------------------

  /** The list get_patients returns: every document, in collection order, with `_id`
      as its hex string. */
  function SerializeAll(ps: seq<Patient<ObjectId>>): (qs: seq<Patient<string>>)
    ensures |qs| == |ps|
    ensures forall i :: 0 <= i < |ps| ==> qs[i] == Serialize(ps[i])
  {
    seq(|ps|, i requires 0 <= i < |ps| => Serialize(ps[i]))
  }

  /** get_patient after the role gate: 400 with bson's reason for a malformed id, the
      document for a known one, 404 otherwise. */
  function GetOne(ps: seq<Patient<ObjectId>>, pathId: string): (r: Reply<Patient<string>>)
    ensures Parse(pathId).None? ==> r == Msg(400, InvalidFormat + ": " + InvalidIdReason(pathId))
    ensures r.Json? <==> exists i :: 0 <= i < |ps| && Some(ps[i].id) == Parse(pathId)
    ensures r.Json? ==> r.status == 200 && exists i :: 0 <= i < |ps| && Some(ps[i].id) == Parse(pathId) && r.value == Serialize(ps[i])
    ensures Parse(pathId).Some? && !r.Json? ==> r == Msg(404, PatientNotFound)
  {
    match Parse(pathId)
    case None => Msg(400, InvalidFormat + ": " + InvalidIdReason(pathId))
    case Some(oid) =>
      var found := IndexOf(ps, oid);
      if found.Some? then Json(200, Serialize(ps[found.value])) else Msg(404, PatientNotFound)
  }

  /** The `_id` the list shows for a document (within the twelve bytes) finds that very
      document again: the dashboard's edit and delete URLs reach the row it drew. */
  lemma {:induction false} ListedIdFindsRecord(ps: seq<Patient<ObjectId>>, i: nat)
    requires UniqueIds(ps) && i < |ps| && ps[i].id.value < Pow16(HexLength)
    ensures GetOne(ps, SerializeAll(ps)[i].id) == Json(200, SerializeAll(ps)[i])
    ensures DecideDelete(ps, SerializeAll(ps)[i].id) == DeleteAt(i)
  {
    ParseToHex(ps[i].id);
    IndexOfUnique(ps, i);
  }

  // ---------------------------------------------------------------------------------
  // add_patient
  // ---------------------------------------------------------------------------------

  /** `not value` on a string field: missing, null or empty. */
  predicate Blank(s: Option<string>) {
    s.None? || s.value == ""
  }

  /** `not all([name, age, gender, department])` on the document built from the body. */
  predicate RequestMissing(data: PatientRequest) {
    || Blank(data.name.Get())
    || data.age.Get().None? || data.age.Get().value == 0
    || Blank(data.gender.Get())
    || Blank(data.department.Get())
  }

  /** {"phone": ..., "email": ...} read from data.get("contact_info", {}); None where a
      null contact_info makes the .get call raise. */
  function ContactOf(c: Field<ContactRequest>): (r: Option<Contact>)
    ensures r.None? <==> c == Null
    ensures c == Absent ==> r == Some(Contact(None, None))
    ensures c.Present? ==> r == Some(Contact(c.value.phone.Get(), c.value.email.Get()))
  {
    match c
    case Absent => Some(Contact(None, None))
    case Null => None
    case Present(v) => Some(Contact(v.phone.Get(), v.email.Get()))
  }

  /** The largest value $toInt converts: a longer run of digits makes the pipeline fail. */
  const Int32Max: nat := 0x7fff_ffff

  predicate IdOverflows(ps: seq<Patient<ObjectId>>) {
    exists i :: 0 <= i < |ps| && IdNumber(ps[i].patientId) > Int32Max
  }

  datatype AddOutcome = AddFails | AddMissing | AddConflict(pid: string) | AddInsert(doc: Patient<ObjectId>)

  /** add_patient after the role gate: the numbering pipeline, the document built
      from the body, the required-field check, the duplicate check, the insert. */
  function DecideAdd(ps: seq<Patient<ObjectId>>, data: PatientRequest, now: int, oid: ObjectId): (o: AddOutcome)
    ensures o.AddFails? <==> IdOverflows(ps) || data.contactInfo == Null
    ensures o.AddMissing? <==> !IdOverflows(ps) && data.contactInfo != Null && RequestMissing(data)
    ensures o.AddInsert? ==>
      && o.doc.id == oid
      && o.doc.patientId == Some(FormatPatientId(NextIdNumber(ps)))
      && o.doc.name == data.name.Get() && o.doc.age == data.age.Get()
      && o.doc.gender == data.gender.Get() && o.doc.department == data.department.Get()
      && o.doc.contactInfo == ContactOf(data.contactInfo)
      && o.doc.prescriptions == data.prescriptions.GetOrDefault([])
      && o.doc.history == data.history.GetOrDefault([])
      && o.doc.visitDates == data.visitDates.GetOrDefault([])
      && o.doc.createdAt == Some(now)
  {
    if IdOverflows(ps) then AddFails
    else
      var pid := FormatPatientId(NextIdNumber(ps));
      var contact := ContactOf(data.contactInfo);
      if contact.None? then AddFails
      else if RequestMissing(data) then AddMissing
      else if exists i :: 0 <= i < |ps| && ps[i].patientId == Some(pid) then AddConflict(pid)
      else
        AddInsert(Patient(oid, Some(pid), data.name.Get(), data.age.Get(), data.gender.Get(), data.department.Get(),
                          contact, data.prescriptions.GetOrDefault([]), data.history.GetOrDefault([]),
                          data.visitDates.GetOrDefault([]), Some(now)))
  }

  /** The duplicate check never fires: a request that passes validation is inserted. */
  lemma AddNeverConflicts(ps: seq<Patient<ObjectId>>, data: PatientRequest, now: int, oid: ObjectId)
    ensures !DecideAdd(ps, data, now, oid).AddConflict?
    ensures DecideAdd(ps, data, now, oid).AddInsert? <==> !IdOverflows(ps) && data.contactInfo != Null && !RequestMissing(data)
  {
    GeneratedIdIsFresh(ps);
  }

  // ---------------------------------------------------------------------------------
  // update_patient
  // ---------------------------------------------------------------------------------

  /** The fields update_patient $sets once the None values are stripped: None marks a
      field left as it is. contact_info is a dict, so it is always set. */
  datatype Changes = Changes(
    name: Option<string>, age: Option<int>, gender: Option<string>, department: Option<string>,
    contact: Contact, prescriptions: Option<seq<string>>, history: Option<seq<string>>)

  /** update_patient's field dict once the entries whose value is None are dropped;
      None where a null contact_info makes building the dict raise. */
  function ChangesOf(data: PatientRequest): (c: Option<Changes>)
    ensures c.None? <==> data.contactInfo == Null
  {
    match ContactOf(data.contactInfo)
    case None => None
    case Some(contact) =>
      Some(Changes(data.name.Get(), data.age.Get(), data.gender.Get(), data.department.Get(), contact,
                   data.prescriptions.GetOrDefault([]), data.history.GetOrDefault([])))
  }

  function Keep<T>(sent: Option<T>, current: Option<T>): Option<T> {
    if sent.Some? then sent else current
  }

  /** {"$set": updated_fields} on one document. */
  function ApplyChanges(p: Patient<ObjectId>, c: Changes): (q: Patient<ObjectId>)
    ensures q.id == p.id && q.patientId == p.patientId && q.visitDates == p.visitDates && q.createdAt == p.createdAt
  {
    p.(name := Keep(c.name, p.name), age := Keep(c.age, p.age), gender := Keep(c.gender, p.gender),
       department := Keep(c.department, p.department), contactInfo := Some(c.contact),
       prescriptions := Keep(c.prescriptions, p.prescriptions), history := Keep(c.history, p.history))
  }

  /** In terms of the request: a field sent with a value is set, a field missing or null
      is kept; contact_info is replaced (by empty phone and email when it is missing), and
      a missing list becomes []. patient_id, visit_dates and created_at never change. */
  lemma UpdateSetsSentFields(p: Patient<ObjectId>, data: PatientRequest)
    requires data.contactInfo != Null
    ensures var q := ApplyChanges(p, ChangesOf(data).value);
      && q.name == (if data.name.Present? then Some(data.name.value) else p.name)
      && q.age == (if data.age.Present? then Some(data.age.value) else p.age)
      && q.gender == (if data.gender.Present? then Some(data.gender.value) else p.gender)
      && q.department == (if data.department.Present? then Some(data.department.value) else p.department)
      && q.contactInfo == ContactOf(data.contactInfo)
      && q.prescriptions == (if data.prescriptions == Null then p.prescriptions else data.prescriptions.GetOrDefault([]))
      && q.history == (if data.history == Null then p.history else data.history.GetOrDefault([]))
      && q.id == p.id && q.patientId == p.patientId && q.visitDates == p.visitDates && q.createdAt == p.createdAt
  {
  }

  /** Sending the same update twice leaves the document as the first one did. */
  lemma UpdateIdempotent(p: Patient<ObjectId>, c: Changes)
    ensures ApplyChanges(ApplyChanges(p, c), c) == ApplyChanges(p, c)
  {
  }

  datatype UpdateOutcome = UpdateFails | UpdateMissing | UpdateAt(index: nat, doc: Patient<ObjectId>)

  /** update_patient after the role gate: a null contact_info and a malformed id both
      raise (the ObjectId call is outside any try), an unmatched id is 404, a matched
      document is replaced by its updated form. */
  function DecideUpdate(ps: seq<Patient<ObjectId>>, pathId: string, data: PatientRequest): (o: UpdateOutcome)
    ensures o.UpdateFails? <==> data.contactInfo == Null || !IsValid(pathId)
    ensures o.UpdateMissing? <==>
      data.contactInfo != Null && IsValid(pathId) && forall j :: 0 <= j < |ps| ==> Some(ps[j].id) != Parse(pathId)
    ensures o.UpdateAt? ==>
      && o.index < |ps| && Parse(pathId) == Some(ps[o.index].id)
      && o.doc == ApplyChanges(ps[o.index], ChangesOf(data).value)
  {
    match ChangesOf(data)
    case None => UpdateFails
    case Some(c) =>
      match Parse(pathId)
      case None => UpdateFails
      case Some(oid) =>
        var found := IndexOf(ps, oid);
        if found.Some? then UpdateAt(found.value, ApplyChanges(ps[found.value], c)) else UpdateMissing
  }

  // ---------------------------------------------------------------------------------
  // delete_patient
  // ---------------------------------------------------------------------------------

  datatype DeleteOutcome = DeleteInvalid | DeleteMissing | DeleteAt(index: nat)

  /** delete_patient after the role gate: 400 for an id ObjectId.is_valid refuses, the
      matching document's position, or no match. */
  function DecideDelete(ps: seq<Patient<ObjectId>>, pathId: string): (o: DeleteOutcome)
    ensures o == DeleteInvalid <==> !IsValid(pathId)
    ensures o == DeleteMissing <==> IsValid(pathId) && forall j :: 0 <= j < |ps| ==> Some(ps[j].id) != Parse(pathId)
    ensures o.DeleteAt? ==> o.index < |ps| && Parse(pathId) == Some(ps[o.index].id)
  {
    match Parse(pathId)
    case None => DeleteInvalid
    case Some(oid) =>
      var found := IndexOf(ps, oid);
      if found.Some? then DeleteAt(found.value) else DeleteMissing
  }

  /** The collection after delete_one removed the document at i. */
  function Remove(ps: seq<Patient<ObjectId>>, i: nat): (rest: seq<Patient<ObjectId>>)
    requires i < |ps|
    ensures |rest| == |ps| - 1
  {
    ps[..i] + ps[i + 1..]
  }

  /** Deleting removes exactly that document: no document with its id is left, every
      other document stays, and the ids stay unique. */
  lemma {:induction false} RemoveExactly(ps: seq<Patient<ObjectId>>, i: nat)
    requires UniqueIds(ps) && i < |ps|
    ensures UniqueIds(Remove(ps, i))
    ensures forall j :: 0 <= j < |Remove(ps, i)| ==> Remove(ps, i)[j].id != ps[i].id
    ensures multiset(Remove(ps, i)) + multiset{ps[i]} == multiset(ps)
  {
    var rest := Remove(ps, i);
    assert forall j :: 0 <= j < |rest| ==> rest[j] == ps[if j < i then j else j + 1];
    assert ps == ps[..i] + [ps[i]] + ps[i + 1..];
  }

  // ---------------------------------------------------------------------------------
  // frequent_visitors: the loop that stringifies `_id`
  // ---------------------------------------------------------------------------------

  function SerializeVisitors(vs: seq<Visitor<ObjectId>>): (ws: seq<Visitor<string>>)
    ensures |ws| == |vs|
    ensures forall i :: 0 <= i < |vs| ==> ws[i] == SerializeVisitor(vs[i])
  {
    seq(|vs|, i requires 0 <= i < |vs| => SerializeVisitor(vs[i]))
  }

  /** The patients collection, the users collection and the source of fresh ObjectIds. */
  class PatientStore {
    var patients: seq<Patient<ObjectId>>
    var users: map<string, User>
    /** The value of the next ObjectId insert_one assigns; every stored id is below it. */
    var nextOid: nat

    ghost predicate Valid()
      reads this
    {
      UniqueIds(patients) && forall i :: 0 <= i < |patients| ==> patients[i].id.value < nextOid
    }

    constructor()
      ensures Valid()
      ensures patients == [] && users == map[] && nextOid == 0
    {
      patients := [];
      users := map[];
      nextOid := 0;
    }

    /** POST /register */
    method Register(body: Credentials, salt: nat) returns (r: Reply<()>)
      modifies this
      ensures patients == old(patients) && nextOid == old(nextOid)
      ensures match Auth.Register(old(users), body, salt)
        case RegisterRejected(status, msg) => r == Msg(status, msg) && users == old(users)
        case RegisterAccepted(name, user) => r == Msg(201, Registered) && users == old(users)[name := user]
    {
      match Auth.Register(users, body, salt)
      case RegisterRejected(status, msg) =>
        r := Msg(status, msg);
      case RegisterAccepted(name, user) =>
        users := users[name := user];
        r := Msg(201, Registered);
    }

    /** POST /login: the token is issued for the stored user's roles. */
    method Login(body: Credentials) returns (r: Reply<AccessToken>)
      ensures r.Json? <==> Auth.Login(users, body).LoginAccepted?
      ensures r.Json? ==> r == Json(200, Auth.Login(users, body).token)
      ensures !r.Json? ==> r == Msg(Auth.Login(users, body).status, Auth.Login(users, body).msg)
    {
      match Auth.Login(users, body)
      case LoginRejected(status, msg) =>
        r := Msg(status, msg);
      case LoginAccepted(t) =>
        r := Json(200, t);
    }

    /** GET /patients: the loop that appends each serialised document. */
    method GetPatients(token: AccessToken) returns (r: Reply<seq<Patient<string>>>)
      ensures Guard<seq<Patient<string>>>(users, token, StaffRoles).Some? ==>
        r == Guard<seq<Patient<string>>>(users, token, StaffRoles).value
      ensures Guard<seq<Patient<string>>>(users, token, StaffRoles).None? ==> r == Json(200, SerializeAll(patients))
    {
      var refused := Guard<seq<Patient<string>>>(users, token, StaffRoles);
      if refused.Some? {
        return refused.value;
      }
      var list := ListPatients(patients);
      r := Json(200, list);
    }

    static method ListPatients(ps: seq<Patient<ObjectId>>) returns (list: seq<Patient<string>>)
      ensures list == SerializeAll(ps)
    {
      list := [];
      var i := 0;
      while i < |ps|
        invariant 0 <= i <= |ps|
        invariant list == SerializeAll(ps[..i])
      {
        assert ps[..i + 1] == ps[..i] + [ps[i]];
        list := list + [Serialize(ps[i])];
        i := i + 1;
      }
      assert ps[..i] == ps;
    }

    /** GET /patients/<id> */
    method GetPatient(token: AccessToken, pathId: string) returns (r: Reply<Patient<string>>)
      ensures Guard<Patient<string>>(users, token, StaffRoles).Some? ==>
        r == Guard<Patient<string>>(users, token, StaffRoles).value
      ensures Guard<Patient<string>>(users, token, StaffRoles).None? ==> r == GetOne(patients, pathId)
    {
      var refused := Guard<Patient<string>>(users, token, StaffRoles);
      if refused.Some? {
        return refused.value;
      }
      r := GetOne(patients, pathId);
    }

    /** POST /patients, with the clock's reading as `now`. */
    method AddPatient(token: AccessToken, data: PatientRequest, now: int) returns (r: Reply<Patient<string>>)
      requires Valid()
      modifies this
      ensures Valid()
      ensures users == old(users)
      ensures Guard<Patient<string>>(old(users), token, StaffRoles).Some? ==>
        r == Guard<Patient<string>>(old(users), token, StaffRoles).value &&
        patients == old(patients) && nextOid == old(nextOid)
      ensures Guard<Patient<string>>(old(users), token, StaffRoles).None? ==>
        var o := DecideAdd(old(patients), data, now, ObjectId(old(nextOid)));
        && (o.AddInsert? ==> r == Json(201, Serialize(o.doc)) && patients == old(patients) + [o.doc] && nextOid == old(nextOid) + 1)
        && (o.AddMissing? ==> r == Msg(400, MissingFields) && patients == old(patients) && nextOid == old(nextOid))
        && (o.AddFails? ==> r == ServerError && patients == old(patients) && nextOid == old(nextOid))
        && (o.AddConflict? ==> r == Msg(409, "Patient with ID " + o.pid + " already exists.") && patients == old(patients) && nextOid == old(nextOid))
    {
      var refused := Guard<Patient<string>>(users, token, StaffRoles);
      if refused.Some? {
        return refused.value;
      }
      var o := DecideAdd(patients, data, now, ObjectId(nextOid));
      match o
      case AddFails =>
        r := ServerError;
      case AddMissing =>
        r := Msg(400, MissingFields);
      case AddConflict(pid) =>
        r := Msg(409, "Patient with ID " + pid + " already exists.");
      case AddInsert(doc) =>
        patients := patients + [doc];
        nextOid := nextOid + 1;
        r := Json(201, Serialize(doc));
    }

    /** PUT /patients/<id> */
    method UpdatePatient(token: AccessToken, pathId: string, data: PatientRequest) returns (r: Reply<Patient<string>>)
      requires Valid()
      modifies this
      ensures Valid()
      ensures users == old(users) && nextOid == old(nextOid)
      ensures Guard<Patient<string>>(old(users), token, StaffRoles).Some? ==>
        r == Guard<Patient<string>>(old(users), token, StaffRoles).value && patients == old(patients)
      ensures Guard<Patient<string>>(old(users), token, StaffRoles).None? ==>
        var o := DecideUpdate(old(patients), pathId, data);
        && (o.UpdateAt? ==> r == Json(200, Serialize(o.doc)) && patients == old(patients)[o.index := o.doc])
        && (o.UpdateMissing? ==> r == Msg(404, PatientNotFound) && patients == old(patients))
        && (o.UpdateFails? ==> r == ServerError && patients == old(patients))
    {
      var refused := Guard<Patient<string>>(users, token, StaffRoles);
      if refused.Some? {
        return refused.value;
      }
      var o := DecideUpdate(patients, pathId, data);
      match o
      case UpdateFails =>
        r := ServerError;
      case UpdateMissing =>
        r := Msg(404, PatientNotFound);
      case UpdateAt(i, doc) =>
        patients := patients[i := doc];
        r := Json(200, Serialize(doc));
    }

    /** DELETE /patients/<id>, for doctors and admins. */
    method DeletePatient(token: AccessToken, pathId: string) returns (r: Reply<()>)
      requires Valid()
      modifies this
      ensures Valid()
      ensures users == old(users) && nextOid == old(nextOid)
      ensures Guard<()>(old(users), token, ClinicianRoles).Some? ==>
        r == Guard<()>(old(users), token, ClinicianRoles).value && patients == old(patients)
      ensures Guard<()>(old(users), token, ClinicianRoles).None? ==>
        var o := DecideDelete(old(patients), pathId);
        && (o.DeleteAt? ==> r == Msg(200, PatientDeleted) && patients == Remove(old(patients), o.index))
        && (o.DeleteMissing? ==> r == Msg(404, PatientNotFound) && patients == old(patients))
        && (o.DeleteInvalid? ==> r == Msg(400, InvalidFormat) && patients == old(patients))
    {
      var refused := Guard<()>(users, token, ClinicianRoles);
      if refused.Some? {
        return refused.value;
      }
      var o := DecideDelete(patients, pathId);
      match o
      case DeleteInvalid =>
        r := Msg(400, InvalidFormat);
      case DeleteMissing =>
        r := Msg(404, PatientNotFound);
      case DeleteAt(i) =>
        RemoveExactly(patients, i);
        patients := Remove(patients, i);
        r := Msg(200, PatientDeleted);
    }

    /** GET /analytics/gender-distribution and /analytics/department-distribution. */
    method DistributionRoute(token: AccessToken, attr: Attribute) returns (r: Reply<seq<Group>>)
      ensures Guard<seq<Group>>(users, token, ClinicianRoles).Some? ==>
        r == Guard<seq<Group>>(users, token, ClinicianRoles).value
      ensures Guard<seq<Group>>(users, token, ClinicianRoles).None? ==> r == Json(200, Distribution(patients, attr))
    {
      var refused := Guard<seq<Group>>(users, token, ClinicianRoles);
      if refused.Some? {
        return refused.value;
      }
      r := Json(200, Distribution(patients, attr));
    }

    /** GET /analytics/frequent-visitors */
    method FrequentVisitorsRoute(token: AccessToken) returns (r: Reply<seq<Visitor<string>>>)
      ensures Guard<seq<Visitor<string>>>(users, token, ClinicianRoles).Some? ==>
        r == Guard<seq<Visitor<string>>>(users, token, ClinicianRoles).value
      ensures Guard<seq<Visitor<string>>>(users, token, ClinicianRoles).None? ==>
        r == Json(200, SerializeVisitors(FrequentVisitors(patients)))
    {
      var refused := Guard<seq<Visitor<string>>>(users, token, ClinicianRoles);
      if refused.Some? {
        return refused.value;
      }
      var results := StringifyIds(FrequentVisitors(patients));
      r := Json(200, results);
    }

    /** The loop that rewrites each result's `_id` as its hex string. */
    static method StringifyIds(vs: seq<Visitor<ObjectId>>) returns (ws: seq<Visitor<string>>)
      ensures ws == SerializeVisitors(vs)
    {
      ws := [];
      var i := 0;
      while i < |vs|
        invariant 0 <= i <= |vs|
        invariant ws == SerializeVisitors(vs[..i])
      {
        assert vs[..i + 1] == vs[..i] + [vs[i]];
        ws := ws + [SerializeVisitor(vs[i])];
        i := i + 1;
      }
      assert vs[..i] == vs;
    }
  }
}
