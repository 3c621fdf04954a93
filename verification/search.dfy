/** filterPatients (static/dashboard.js): the client-side search over the cached
    patient list and the table rows it draws. */
module Search {
  import opened Text
  import opened Records

  /** A row of the patient table: the prompt shown for an empty search, the no-match
      notice, or one patient with its cells and its `_id` as data-id. */
  datatype Row =
    | SearchPrompt
    | NoMatches
    | PatientRow(dataId: string, code: string, name: string, age: string, gender: string,
                 department: string, contact: string, prescriptions: string, history: string)

  /** The search input with surrounding whitespace removed, lower-cased. */
  function SearchTerm(input: string): string {
    ToLower(Trim(input))
  }

  /** The filter callback: the lower-cased name, or a present non-empty patient_id,
      contains the term. It reads name.toLowerCase() first, so it needs a name. */
  predicate Matches(p: Patient<string>, term: string)
    requires p.name.Some?
  {
    || Includes(ToLower(p.name.value), term)
    || (p.patientId.Some? && p.patientId.value != "" && Includes(ToLower(p.patientId.value), term))
  }

  predicate AllNamed(ps: seq<Patient<string>>) {
    forall i :: 0 <= i < |ps| ==> ps[i].name.Some?
  }

  /** allPatients.filter(...): the matching patients, in store order. */
  function Filter(ps: seq<Patient<string>>, term: string): (r: seq<Patient<string>>)
    requires AllNamed(ps)
    ensures |r| <= |ps|
    ensures forall i :: 0 <= i < |r| ==> r[i] in ps && r[i].name.Some? && Matches(r[i], term)
  {
    if ps == [] then []
    else
      var rest := Filter(ps[1..], term);
      if Matches(ps[0], term) then [ps[0]] + rest else rest
  }

  /** `value || 'N/A'` on a string field. */
  function OrNA(v: Option<string>): string {
    if v.Some? && v.value != "" then v.value else "N/A"
  }

  /** `list.join(', ')` for an array, 'N/A' otherwise. */
  function ListCell(v: Option<seq<string>>): string {
    if v.Some? then Join(v.value, ", ") else "N/A"
  }

  /** The row drawn for one patient; missing parts are shown as 'N/A'. */
  function RenderRow(p: Patient<string>): (row: Row)
    ensures row.PatientRow? && row.dataId == p.id
  {
    var contact := p.contactInfo.GetOr(Contact(None, None));
    PatientRow(
      p.id,
      OrNA(p.patientId),
      OrNA(p.name),
      if p.age.Some? && p.age.value != 0 then IntToString(p.age.value) else "N/A",
      OrNA(p.gender),
      OrNA(p.department),
      "Phone: " + OrNA(contact.phone) + "<br>Email: " + OrNA(contact.email),
      ListCell(p.prescriptions),
      ListCell(p.history))
  }

  function RenderRows(ps: seq<Patient<string>>): (rows: seq<Row>)
    ensures |rows| == |ps|
    ensures forall i :: 0 <= i < |ps| ==> rows[i] == RenderRow(ps[i])
  {
    seq(|ps|, i requires 0 <= i < |ps| => RenderRow(ps[i]))
  }

  /** What the table body holds after filterPatients: the prompt for a blank search;
      None when the filter throws on a patient without a name, which leaves the body
      cleared; the no-match row when no patient matches; otherwise one row per
      matching patient. */
  function SearchRows(ps: seq<Patient<string>>, input: string): (r: Option<seq<Row>>)
    ensures SearchTerm(input) == "" ==> r == Some([SearchPrompt])
    ensures r.None? <==> SearchTerm(input) != "" && !AllNamed(ps)
    ensures SearchTerm(input) != "" && AllNamed(ps) ==>
      && ((forall i :: 0 <= i < |ps| ==> !Matches(ps[i], SearchTerm(input))) ==> r == Some([NoMatches]))
      && ((exists i :: 0 <= i < |ps| && Matches(ps[i], SearchTerm(input))) ==> r == Some(RenderRows(Filter(ps, SearchTerm(input)))))
  {
    var term := SearchTerm(input);
    if term == "" then Some([SearchPrompt])
    else if !AllNamed(ps) then None
    else
      var found := Filter(ps, term);
      FilterExact(ps, term);
      if found == [] then Some([NoMatches]) else Some(RenderRows(found))
  }

  /** The search ignores case: inputs that lower-case alike draw the same rows. */
  lemma SearchIgnoresCase(ps: seq<Patient<string>>, a: string, b: string)
    requires ToLower(a) == ToLower(b)
    ensures SearchRows(ps, a) == SearchRows(ps, b)
  {
    TrimLower(a);
    TrimLower(b);
  }

  /** s is a subsequence of t: its elements appear in t in the same order. */
  predicate IsSubsequence<T(==)>(s: seq<T>, t: seq<T>) {
    if t == [] then s == []
    else (s != [] && s[0] == t[0] && IsSubsequence(s[1..], t[1..])) || IsSubsequence(s, t[1..])
  }

  /** The filter keeps exactly the matching patients, each as often as the store holds
      it, in store order. */
  lemma {:induction false} FilterExact(ps: seq<Patient<string>>, term: string)
    requires AllNamed(ps)
    ensures IsSubsequence(Filter(ps, term), ps)
    ensures forall p :: p in ps ==> (p in Filter(ps, term) <==> Matches(p, term))
    ensures forall p :: p in ps ==> multiset(Filter(ps, term))[p] == if Matches(p, term) then multiset(ps)[p] else 0
  {
    if ps != [] {
      FilterExact(ps[1..], term);
      assert ps == [ps[0]] + ps[1..];
      var rest := Filter(ps[1..], term);
      if Matches(ps[0], term) {
        assert ([ps[0]] + rest)[1..] == rest;
      }
    }
  }

  /** An empty search shows the prompt and never the list, whatever the store holds. */
  lemma EmptySearchShowsPrompt(ps: seq<Patient<string>>, input: string)
    requires AllSpaces(input)
    ensures SearchRows(ps, input) == Some([SearchPrompt])
  {
    TrimIsInfix(input);
  }

  /** Searching "Jane" over Jane Doe (P1) and John Roe (P2) draws exactly Jane's row. */
  lemma JaneExample(jane: Patient<string>, john: Patient<string>)
    requires jane.name == Some("Jane Doe") && jane.patientId == Some("P1")
    requires john.name == Some("John Roe") && john.patientId == Some("P2")
    ensures SearchRows([jane, john], "Jane") == Some([RenderRow(jane)])
  {
    JaneTerm();
    JaneMatches(jane);
    JohnDoesNotMatch(john);
    assert [jane, john][1..] == [john];
    assert Filter([john], "jane") == [];
    assert Filter([jane, john], "jane") == [jane];
    assert RenderRows([jane]) == [RenderRow(jane)];
  }

  lemma JaneTerm()
    ensures SearchTerm("Jane") == "jane"
  {
    TrimmedJane();
    LowerJane("Jane");
  }

  lemma TrimmedJane()
    ensures Trim("Jane") == "Jane"
  {
    TrimAfterSpaces("", "Jane");
    assert "" + "Jane" == "Jane";
  }

  lemma LowerJane(s: string)
    requires s == "Jane"
    ensures ToLower(s) == "jane"
  {
    var l := ToLower(s);
    assert l[0] == 'j' && l[1] == 'a' && l[2] == 'n' && l[3] == 'e';
  }

  lemma JaneMatches(jane: Patient<string>)
    requires jane.name == Some("Jane Doe")
    ensures Matches(jane, "jane")
  {
    var n := ToLower("Jane Doe");
    assert n[..4] == "jane";
    assert OccursAt(n, "jane", 0);
  }

  lemma JohnDoesNotMatch(john: Patient<string>)
    requires john.name == Some("John Roe") && john.patientId == Some("P2")
    ensures !Matches(john, "jane")
  {
    var n := ToLower("John Roe");
    assert n == "john roe";
    forall i | 0 <= i <= |n| - 4 ensures !OccursAt(n, "jane", i) {
      if i == 0 {
        assert n[i..i + 4][1] == 'o';
      } else {
        assert n[i..i + 4][0] == n[i];
      }
    }
    assert |ToLower("P2")| < 4;
  }
}
