/** add_patient's sequential patient_id (app.py): the next number is one more than the
    largest number found in the existing ids of the form P<digits>, and the id is 'P'
    followed by that number padded with zeros to at least three digits. */
module PatientIds {
  import opened Text
  import opened Records

  /** The regular expression ^P\d+$ (without its match before a final newline). */
  predicate IsPNumber(s: string) {
    |s| >= 2 && s[0] == 'P' && AllDigits(s[1..])
  }

  /** The $project stage: $toInt of the digits after 'P' for a matching id, 0 for any
      other id and for a document without one. */
  function IdNumber(pid: Option<string>): (n: nat)
    ensures pid.Some? && IsPNumber(pid.value) ==> n == DigitsValue(pid.value[1..])
    ensures !(pid.Some? && IsPNumber(pid.value)) ==> n == 0
  {
    if pid.Some? && IsPNumber(pid.value) then DigitsValue(pid.value[1..]) else 0
  }

  /** The $group stage: $max of the projected numbers (0 for an empty collection, where
      the pipeline yields no document at all). */
  function MaxIdNumber<Id>(docs: seq<Patient<Id>>): (m: nat)
    ensures forall i :: 0 <= i < |docs| ==> IdNumber(docs[i].patientId) <= m
    ensures docs != [] ==> exists i :: 0 <= i < |docs| && IdNumber(docs[i].patientId) == m
    ensures docs == [] ==> m == 0
  {
    if docs == [] then 0
    else
      var rest := MaxIdNumber(docs[1..]);
      var here := IdNumber(docs[0].patientId);
      if here >= rest then here else rest
  }

  /** One past the maximum when the pipeline returned a document, 1 when it returned
      none: the least number above every existing one. */
  function NextIdNumber<Id>(docs: seq<Patient<Id>>): (n: nat)
    ensures n >= 1
    ensures forall i :: 0 <= i < |docs| ==> IdNumber(docs[i].patientId) < n
    ensures docs == [] ==> n == 1
    ensures docs != [] ==> exists i :: 0 <= i < |docs| && IdNumber(docs[i].patientId) == n - 1
  {
    if docs == [] then 1 else MaxIdNumber(docs) + 1
  }

  /** 'P' followed by the decimal digits of n, left-padded with zeros to three digits. */
  function FormatPatientId(n: nat): (s: string)
    ensures |s| >= 4 && s[0] == 'P'
  {
    ZeroPadDigits(NatToString(n), 3);
    "P" + ZeroPad(NatToString(n), 3)
  }

  /** The generated id has the P<digits> form and its digits read back as the number it
      was made from. */
  lemma FormatReadsBack(n: nat)
    ensures IsPNumber(FormatPatientId(n))
    ensures IdNumber(Some(FormatPatientId(n))) == n
  {
    var s := FormatPatientId(n);
    ZeroPadDigits(NatToString(n), 3);
    NatToStringValue(n);
    assert s[1..] == ZeroPad(NatToString(n), 3);
  }

  /** Numbers up to 999 take exactly three digits; larger ones are not truncated. */
  lemma FormatWidth(n: nat)
    ensures n < 1000 ==> |FormatPatientId(n)| == 4
    ensures |FormatPatientId(n)| == 1 + (if |NatToString(n)| >= 3 then |NatToString(n)| else 3)
  {
    ZeroPadDigits(NatToString(n), 3);
    if n < 1000 {
      NatToStringShort(n);
    }
  }

  lemma {:induction false} NatToStringShort(n: nat)
    requires n < 1000
    ensures |NatToString(n)| <= 3
  {
    if n >= 10 {
      NatToStringShort(n / 10);
    }
  }

  /** The id generated for a collection differs from every patient_id already in it,
      so the duplicate patient_id check that follows the generation never fires. */
  lemma GeneratedIdIsFresh<Id>(docs: seq<Patient<Id>>)
    ensures forall i :: 0 <= i < |docs| ==> docs[i].patientId != Some(FormatPatientId(NextIdNumber(docs)))
  {
    var n := NextIdNumber(docs);
    FormatReadsBack(n);
  }

  /** After inserting a document with the generated id, the next id number is one
      larger: ids come out as P001, P002, P003, ... */
  lemma {:induction false} NextAfterInsert<Id>(docs: seq<Patient<Id>>, p: Patient<Id>)
    requires p.patientId == Some(FormatPatientId(NextIdNumber(docs)))
    ensures NextIdNumber(docs + [p]) == NextIdNumber(docs) + 1
  {
    var n := NextIdNumber(docs);
    FormatReadsBack(n);
    var all := docs + [p];
    assert all[|docs|] == p;
    assert forall i :: 0 <= i < |all| ==> IdNumber(all[i].patientId) <= n;
  }
}
