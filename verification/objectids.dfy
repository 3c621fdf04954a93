/** MongoDB ObjectIds as the server sees them: twelve bytes, written as 24 hexadecimal
    digits on the wire. */
module ObjectIds {
  import opened Text
  import opened Records

  datatype ObjectId = ObjectId(value: nat)

  const HexLength: nat := 24

  /** ObjectId.is_valid on a str: exactly 24 hexadecimal digits, either case. */
  predicate IsValid(s: string) {
    |s| == HexLength && AllHexDigits(s)
  }

  /** ObjectId(s): the id a valid string denotes; None where bson raises InvalidId. */
  function Parse(s: string): (r: Option<ObjectId>)
    ensures r.Some? <==> IsValid(s)
  {
    if IsValid(s) then Some(ObjectId(HexValue(s))) else None
  }

  /** str(oid): 24 lower-case hexadecimal digits. */
  function ToHex(oid: ObjectId): (s: string)
    ensures IsValid(s)
  {
    LowerHex(oid.value, HexLength)
  }

  /** An id the server sent as `_id` parses back to the same id when the dashboard puts
      it into a URL (for ids within the twelve bytes). */
  lemma ParseToHex(oid: ObjectId)
    requires oid.value < Pow16(HexLength)
    ensures Parse(ToHex(oid)) == Some(oid)
  {
    LowerHexValue(oid.value, HexLength);
  }

  /** The serialised form of a stored patient: `_id` replaced by its hex string. */
  function Serialize(p: Patient<ObjectId>): (q: Patient<string>)
    ensures IsValid(q.id) && q.id == ToHex(p.id)
    ensures q.patientId == p.patientId && q.name == p.name && q.age == p.age && q.gender == p.gender
    ensures q.department == p.department && q.contactInfo == p.contactInfo
    ensures q.prescriptions == p.prescriptions && q.history == p.history
    ensures q.visitDates == p.visitDates && q.createdAt == p.createdAt
  {
    Patient(ToHex(p.id), p.patientId, p.name, p.age, p.gender, p.department,
            p.contactInfo, p.prescriptions, p.history, p.visitDates, p.createdAt)
  }

  /** The serialised form of a visitor row: `_id` as its hex string, the rest as it is. */
  function SerializeVisitor(v: Visitor<ObjectId>): (w: Visitor<string>)
    ensures IsValid(w.id) && w.id == ToHex(v.id)
    ensures w.name == v.name && w.patientId == v.patientId && w.visitCount == v.visitCount
  {
    Visitor(ToHex(v.id), v.name, v.patientId, v.visitCount)
  }
}
