/** The three aggregation pipelines of the analytics endpoints (app.py), by what each
    stage computes over the patients collection taken as a sequence of documents. */
module Analytics {
  import opened Records

  // ---------------------------------------------------------------------------------
  // Key order
  // ---------------------------------------------------------------------------------

  /** Binary order on strings: MongoDB compares strings by their UTF-8 bytes, which
      orders them as their code points. */
  predicate StrLess(a: string, b: string) {
    if a == [] then b != []
    else b != [] && (a[0] < b[0] || (a[0] == b[0] && StrLess(a[1..], b[1..])))
  }

  /** The BSON order of a `$sort` on the group key: null (the group of documents
      without the field) before every string. */
  predicate KeyLess(a: Option<string>, b: Option<string>) {
    match a
    case None => b.Some?
    case Some(x) => b.Some? && StrLess(x, b.value)
  }

  lemma {:induction false} StrLessIrreflexive(a: string)
    ensures !StrLess(a, a)
  {
    if a != [] {
      StrLessIrreflexive(a[1..]);
    }
  }

  lemma {:induction false} StrLessTransitive(a: string, b: string, c: string)
    requires StrLess(a, b) && StrLess(b, c)
    ensures StrLess(a, c)
  {
    if a != [] && a[0] == b[0] && b[0] == c[0] {
      StrLessTransitive(a[1..], b[1..], c[1..]);
    }
  }

  lemma {:induction false} StrLessTotal(a: string, b: string)
    requires a != b
    ensures StrLess(a, b) || StrLess(b, a)
  {
    if a != [] && b != [] && a[0] == b[0] {
      assert a == [a[0]] + a[1..] && b == [b[0]] + b[1..];
      StrLessTotal(a[1..], b[1..]);
    }
  }

  /** Keys form a strict total order. */
  lemma KeyOrder(a: Option<string>, b: Option<string>, c: Option<string>)
    ensures !KeyLess(a, a)
    ensures KeyLess(a, b) && KeyLess(b, c) ==> KeyLess(a, c)
    ensures a != b ==> KeyLess(a, b) || KeyLess(b, a)
  {
    if a.Some? {
      StrLessIrreflexive(a.value);
      if b.Some? && c.Some? && KeyLess(a, b) && KeyLess(b, c) {
        StrLessTransitive(a.value, b.value, c.value);
      }
      if b.Some? && a != b {
        StrLessTotal(a.value, b.value);
      }
    }
  }

  // ---------------------------------------------------------------------------------
  // $group by a field with {$sum: 1}, then $sort on _id ascending
  // ---------------------------------------------------------------------------------

  /** Group rows with strictly ascending keys, hence one row per key. */
  predicate Ascending(gs: seq<Group>) {
    forall i, j :: 0 <= i < j < |gs| ==> KeyLess(gs[i].key, gs[j].key)
  }

  /** The count shown for key k: the count of its row, 0 when there is none. */
  function CountOf(gs: seq<Group>, k: Option<string>): nat {
    if gs == [] then 0
    else (if gs[0].key == k then gs[0].count else 0) + CountOf(gs[1..], k)
  }

  function TotalCount(gs: seq<Group>): nat {
    if gs == [] then 0 else gs[0].count + TotalCount(gs[1..])
  }

  predicate AllCounted(gs: seq<Group>) {
    forall i :: 0 <= i < |gs| ==> gs[i].count >= 1
  }

  /** One more document with key k, in a sorted row list: its row is incremented, or a
      row with count 1 is placed where the order puts it. */
  function AddKey(gs: seq<Group>, k: Option<string>): (r: seq<Group>)
    ensures |r| >= 1
  {
    if gs == [] then [Group(k, 1)]
    else if gs[0].key == k then [Group(k, gs[0].count + 1)] + gs[1..]
    else if KeyLess(k, gs[0].key) then [Group(k, 1)] + gs
    else [gs[0]] + AddKey(gs[1..], k)
  }

  /** The rows of a distribution over the given field values. */
  function GroupCount(values: seq<Option<string>>): seq<Group> {
    if values == [] then [] else AddKey(GroupCount(values[..|values| - 1]), values[|values| - 1])
  }

  lemma {:induction false} AddKeyCounts(gs: seq<Group>, k: Option<string>)
    ensures forall k' :: CountOf(AddKey(gs, k), k') == CountOf(gs, k') + (if k' == k then 1 else 0)
    ensures TotalCount(AddKey(gs, k)) == TotalCount(gs) + 1
    ensures AllCounted(gs) ==> AllCounted(AddKey(gs, k))
  {
    var r := AddKey(gs, k);
    if gs == [] {
    } else if gs[0].key == k {
      assert r[1..] == gs[1..];
    } else if KeyLess(k, gs[0].key) {
      assert r[1..] == gs;
    } else {
      AddKeyCounts(gs[1..], k);
      assert r[1..] == AddKey(gs[1..], k);
    }
  }

  /** The first key of AddKey's result is k or the old first key. */
  lemma AddKeyHead(gs: seq<Group>, k: Option<string>)
    ensures AddKey(gs, k)[0].key == k || (gs != [] && AddKey(gs, k)[0].key == gs[0].key)
  {
  }

  lemma {:induction false} AddKeyAscending(gs: seq<Group>, k: Option<string>)
    requires Ascending(gs)
    ensures Ascending(AddKey(gs, k))
  {
    var r := AddKey(gs, k);
    if gs == [] {
    } else if gs[0].key == k {
    } else if KeyLess(k, gs[0].key) {
      forall i, j | 0 <= i < j < |r| ensures KeyLess(r[i].key, r[j].key) {
        if i == 0 && j > 1 {
          KeyOrder(k, gs[0].key, gs[j - 1].key);
        }
      }
    } else {
      var rest := AddKey(gs[1..], k);
      AddKeyAscending(gs[1..], k);
      KeyOrder(gs[0].key, k, k);
      KeyOrder(k, gs[0].key, k);
      assert KeyLess(gs[0].key, k);
      assert KeyLess(gs[0].key, rest[0].key) by {
        AddKeyHead(gs[1..], k);
      }
      forall i, j | 0 <= i < j < |r| ensures KeyLess(r[i].key, r[j].key) {
        if i == 0 && j > 1 {
          KeyOrder(gs[0].key, rest[0].key, rest[j - 1].key);
        }
      }
    }
  }

  /** The rows are strictly ascending by key, each key's count is the number of its
      occurrences, no row is empty, and the counts add up to the number of documents. */
  lemma {:induction false} GroupCountCorrect(values: seq<Option<string>>)
    ensures Ascending(GroupCount(values))
    ensures forall k :: CountOf(GroupCount(values), k) == multiset(values)[k]
    ensures AllCounted(GroupCount(values))
    ensures TotalCount(GroupCount(values)) == |values|
  {
    if values != [] {
      var init := values[..|values| - 1];
      var last := values[|values| - 1];
      GroupCountCorrect(init);
      AddKeyAscending(GroupCount(init), last);
      AddKeyCounts(GroupCount(init), last);
      assert values == init + [last];
      assert multiset(values) == multiset(init) + multiset{last};
    }
  }

  /** In an ascending list, the count of a key is the count of its row. */
  lemma {:induction false} CountOfRow(gs: seq<Group>, i: int)
    requires Ascending(gs) && 0 <= i < |gs|
    ensures CountOf(gs, gs[i].key) == gs[i].count
  {
    if i == 0 {
      NoLaterRow(gs[1..], gs[0].key);
    } else {
      assert gs[0].key != gs[i].key by {
        KeyOrder(gs[0].key, gs[i].key, gs[i].key);
      }
      CountOfRow(gs[1..], i - 1);
    }
  }

  lemma {:induction false} NoLaterRow(gs: seq<Group>, k: Option<string>)
    requires forall i :: 0 <= i < |gs| ==> KeyLess(k, gs[i].key)
    ensures CountOf(gs, k) == 0
  {
    if gs != [] {
      KeyOrder(k, k, k);
      NoLaterRow(gs[1..], k);
    }
  }

  /** The row keys are exactly the field values that occur, and each row's count is the
      number of documents with that value. */
  lemma RowsAreOccurrences(values: seq<Option<string>>)
    ensures forall i :: 0 <= i < |GroupCount(values)| ==>
      GroupCount(values)[i].key in values && GroupCount(values)[i].count == multiset(values)[GroupCount(values)[i].key]
    ensures forall k :: k in values ==> exists i :: 0 <= i < |GroupCount(values)| && GroupCount(values)[i].key == k
  {
    var gs := GroupCount(values);
    GroupCountCorrect(values);
    forall i | 0 <= i < |gs| ensures gs[i].key in values && gs[i].count == multiset(values)[gs[i].key] {
      CountOfRow(gs, i);
    }
    forall k | k in values ensures exists i :: 0 <= i < |gs| && gs[i].key == k {
      assert CountOf(gs, k) > 0;
      KeyHasRow(gs, k);
    }
  }

  lemma {:induction false} KeyHasRow(gs: seq<Group>, k: Option<string>)
    requires CountOf(gs, k) > 0
    ensures exists i :: 0 <= i < |gs| && gs[i].key == k
  {
    if gs[0].key != k {
      KeyHasRow(gs[1..], k);
      var i :| 0 <= i < |gs[1..]| && gs[1..][i].key == k;
      assert gs[i + 1].key == k;
    }
  }

  /** The field a distribution groups by. */
  datatype Attribute = GenderField | DepartmentField

  /** `$gender` / `$department`: the document's value, null when it has none. */
  function ValueOf<Id>(p: Patient<Id>, attr: Attribute): Option<string> {
    match attr
    case GenderField => p.gender
    case DepartmentField => p.department
  }

  function Values<Id>(docs: seq<Patient<Id>>, attr: Attribute): (vs: seq<Option<string>>)
    ensures |vs| == |docs|
    ensures forall i :: 0 <= i < |docs| ==> vs[i] == ValueOf(docs[i], attr)
  {
    seq(|docs|, i requires 0 <= i < |docs| => ValueOf(docs[i], attr))
  }

  /** gender_distribution and department_distribution: one row per distinct value in
      ascending key order, each counting the documents with that value; the counts sum
      to the size of the collection. */
  function Distribution<Id>(docs: seq<Patient<Id>>, attr: Attribute): (gs: seq<Group>)
    ensures Ascending(gs) && AllCounted(gs)
    ensures forall k :: CountOf(gs, k) == multiset(Values(docs, attr))[k]
    ensures TotalCount(gs) == |docs|
  {
    GroupCountCorrect(Values(docs, attr));
    GroupCount(Values(docs, attr))
  }

  // ---------------------------------------------------------------------------------
  // frequent_visitors: $match non-empty visit_dates, $project, $sort desc, $limit 10
  // ---------------------------------------------------------------------------------

  const VisitorLimit: nat := 10

  /** The $match stage: visit_dates exists, is an array, and is not empty. */
  predicate HasVisits<Id>(p: Patient<Id>) {
    p.visitDates.Some? && |p.visitDates.value| > 0
  }

  /** The $project stage: _id, name, patient_id and the size of visit_dates. */
  function Project<Id>(p: Patient<Id>): Visitor<Id>
    requires HasVisits(p)
  {
    Visitor(p.id, p.name, p.patientId, |p.visitDates.value|)
  }

  /** The projected documents that pass the $match, in collection order. */
  function Eligible<Id>(docs: seq<Patient<Id>>): (vs: seq<Visitor<Id>>)
    ensures forall i :: 0 <= i < |vs| ==> vs[i].visitCount >= 1
  {
    if docs == [] then []
    else
      var rest := Eligible(docs[1..]);
      if HasVisits(docs[0]) then [Project(docs[0])] + rest else rest
  }

  /** vs is the projection of the documents at the strictly increasing positions idx,
      and idx holds every position whose document has visits and no other. */
  ghost predicate ProjectsAt<Id>(docs: seq<Patient<Id>>, vs: seq<Visitor<Id>>, idx: seq<nat>) {
    && |idx| == |vs|
    && (forall k :: 0 <= k < |idx| ==> idx[k] < |docs| && HasVisits(docs[idx[k]]) && vs[k] == Project(docs[idx[k]]))
    && (forall k, l :: 0 <= k < l < |idx| ==> idx[k] < idx[l])
    && (forall i :: 0 <= i < |docs| && HasVisits(docs[i]) ==> i in idx)
  }

  /** The $match and $project stages keep exactly the documents with visits, once each
      and in collection order, each with visit_count the length of its visit_dates. */
  lemma {:induction false} EligibleExact<Id>(docs: seq<Patient<Id>>)
    ensures exists idx :: ProjectsAt(docs, Eligible(docs), idx)
    ensures forall k :: 0 <= k < |Eligible(docs)| ==>
      exists i :: 0 <= i < |docs| && HasVisits(docs[i]) && Eligible(docs)[k].visitCount == |docs[i].visitDates.value|
  {
    if docs == [] {
      assert Eligible(docs) == [];
      assert ProjectsAt(docs, Eligible(docs), []);
    } else {
      EligibleExact(docs[1..]);
      var tail :| ProjectsAt(docs[1..], Eligible(docs[1..]), tail);
      EligibleStep(docs, tail);
    }
    forall k | 0 <= k < |Eligible(docs)|
      ensures exists i :: 0 <= i < |docs| && HasVisits(docs[i]) && Eligible(docs)[k].visitCount == |docs[i].visitDates.value|
    {
      var idx :| ProjectsAt(docs, Eligible(docs), idx);
      var i := idx[k];
      assert 0 <= i < |docs| && HasVisits(docs[i]) && Eligible(docs)[k] == Project(docs[i]);
    }
  }

  /** Positions in docs[1..] as positions in docs. */
  function Shift(idx: seq<nat>): (r: seq<nat>)
    ensures |r| == |idx| && forall k :: 0 <= k < |idx| ==> r[k] == idx[k] + 1
  {
    seq(|idx|, k requires 0 <= k < |idx| => idx[k] + 1)
  }

  /** The positions found for the rest of the collection, moved up by one and preceded
      by 0 when the first document has visits, are the positions for the whole. */
  lemma EligibleStep<Id>(docs: seq<Patient<Id>>, tail: seq<nat>)
    requires docs != [] && ProjectsAt(docs[1..], Eligible(docs[1..]), tail)
    ensures exists idx :: ProjectsAt(docs, Eligible(docs), idx)
  {
    var rest := Eligible(docs[1..]);
    ShiftProjects(docs, rest, tail);
    ShiftCovers(docs, rest, tail);
    if HasVisits(docs[0]) {
      assert Eligible(docs) == [Project(docs[0])] + rest;
      WithHead(docs, rest, Shift(tail));
    } else {
      assert Eligible(docs) == rest;
      WithoutHead(docs, rest, Shift(tail));
    }
  }

  /** The facts about the shifted positions that the two cases of the step combine. */
  ghost predicate ShiftedFacts<Id>(docs: seq<Patient<Id>>, rest: seq<Visitor<Id>>, shifted: seq<nat>) {
    && |shifted| == |rest|
    && (forall k :: 0 <= k < |shifted| ==>
         0 < shifted[k] < |docs| && HasVisits(docs[shifted[k]]) && rest[k] == Project(docs[shifted[k]]))
    && (forall k, l :: 0 <= k < l < |shifted| ==> shifted[k] < shifted[l])
    && (forall i :: 0 < i < |docs| && HasVisits(docs[i]) ==> i in shifted)
  }

  lemma WithHead<Id>(docs: seq<Patient<Id>>, rest: seq<Visitor<Id>>, shifted: seq<nat>)
    requires docs != [] && HasVisits(docs[0]) && ShiftedFacts(docs, rest, shifted)
    ensures ProjectsAt(docs, [Project(docs[0])] + rest, [0] + shifted)
  {
    var vs := [Project(docs[0])] + rest;
    var idx := [0] + shifted;
    forall k | 0 <= k < |idx|
      ensures idx[k] < |docs| && HasVisits(docs[idx[k]]) && vs[k] == Project(docs[idx[k]])
    {
      if k > 0 {
        assert idx[k] == shifted[k - 1] && vs[k] == rest[k - 1];
      }
    }
    forall k, l | 0 <= k < l < |idx| ensures idx[k] < idx[l] {
      assert idx[l] == shifted[l - 1];
      if k > 0 {
        assert idx[k] == shifted[k - 1];
      }
    }
    forall i | 0 <= i < |docs| && HasVisits(docs[i]) ensures i in idx {
      if i > 0 {
        assert i in shifted;
      }
    }
  }

  lemma WithoutHead<Id>(docs: seq<Patient<Id>>, rest: seq<Visitor<Id>>, shifted: seq<nat>)
    requires docs != [] && !HasVisits(docs[0]) && ShiftedFacts(docs, rest, shifted)
    ensures ProjectsAt(docs, rest, shifted)
  {
  }

  lemma ShiftProjects<Id>(docs: seq<Patient<Id>>, rest: seq<Visitor<Id>>, tail: seq<nat>)
    requires docs != [] && ProjectsAt(docs[1..], rest, tail)
    ensures forall k :: 0 <= k < |tail| ==>
      0 < Shift(tail)[k] < |docs| && HasVisits(docs[Shift(tail)[k]]) && rest[k] == Project(docs[Shift(tail)[k]])
    ensures forall k, l :: 0 <= k < l < |tail| ==> Shift(tail)[k] < Shift(tail)[l]
  {
    forall k | 0 <= k < |tail|
      ensures 0 < Shift(tail)[k] < |docs| && HasVisits(docs[Shift(tail)[k]]) && rest[k] == Project(docs[Shift(tail)[k]])
    {
      assert docs[1..][tail[k]] == docs[tail[k] + 1];
    }
  }

  lemma ShiftCovers<Id>(docs: seq<Patient<Id>>, rest: seq<Visitor<Id>>, tail: seq<nat>)
    requires docs != [] && ProjectsAt(docs[1..], rest, tail)
    ensures forall i :: 0 < i < |docs| && HasVisits(docs[i]) ==> i in Shift(tail)
  {
    forall i | 0 < i < |docs| && HasVisits(docs[i]) ensures i in Shift(tail) {
      assert docs[1..][i - 1] == docs[i];
      var k :| 0 <= k < |tail| && tail[k] == i - 1;
      assert Shift(tail)[k] == i;
    }
  }

  predicate NonIncreasing<Id>(vs: seq<Visitor<Id>>) {
    forall i, j :: 0 <= i < j < |vs| ==> vs[i].visitCount >= vs[j].visitCount
  }

  /** Insertion into a list sorted by descending visit count, after the rows with an
      equal count. */
  function InsertByCount<Id>(vs: seq<Visitor<Id>>, v: Visitor<Id>): (r: seq<Visitor<Id>>)
    ensures |r| == |vs| + 1
    ensures multiset(r) == multiset(vs) + multiset{v}
  {
    if vs == [] then [v]
    else if vs[0].visitCount >= v.visitCount then
      assert vs == [vs[0]] + vs[1..];
      [vs[0]] + InsertByCount(vs[1..], v)
    else [v] + vs
  }

  /** The $sort on visit_count descending. MongoDB leaves the order of equal counts
      unspecified; this picks the collection order. */
  function SortByCount<Id>(vs: seq<Visitor<Id>>): (r: seq<Visitor<Id>>)
    ensures |r| == |vs|
    ensures multiset(r) == multiset(vs)
  {
    if vs == [] then []
    else
      assert vs == vs[..|vs| - 1] + [vs[|vs| - 1]];
      InsertByCount(SortByCount(vs[..|vs| - 1]), vs[|vs| - 1])
  }

  lemma {:induction false} InsertByCountSorted<Id>(vs: seq<Visitor<Id>>, v: Visitor<Id>)
    requires NonIncreasing(vs)
    ensures NonIncreasing(InsertByCount(vs, v))
  {
    if vs != [] && vs[0].visitCount >= v.visitCount {
      var rest := InsertByCount(vs[1..], v);
      InsertByCountSorted(vs[1..], v);
      var r := [vs[0]] + rest;
      forall j | 0 < j < |r| ensures r[0].visitCount >= r[j].visitCount {
        assert r[j] in multiset(rest);
        assert r[j] in multiset(vs[1..]) + multiset{v};
        if r[j] != v {
          var k :| 0 <= k < |vs[1..]| && vs[1..][k] == r[j];
          assert vs[k + 1] == r[j];
        }
      }
    }
  }

  lemma {:induction false} SortByCountSorted<Id>(vs: seq<Visitor<Id>>)
    ensures NonIncreasing(SortByCount(vs))
  {
    if vs != [] {
      SortByCountSorted(vs[..|vs| - 1]);
      InsertByCountSorted(SortByCount(vs[..|vs| - 1]), vs[|vs| - 1]);
    }
  }

  /** The $limit stage. */
  function Limit<T>(vs: seq<T>, n: nat): (r: seq<T>)
    ensures |r| == if |vs| <= n then |vs| else n
    ensures r == vs[..|r|]
  {
    if |vs| <= n then vs else vs[..n]
  }

  /** frequent_visitors' pipeline result, before the ids are stringified: at most ten
      rows, in non-increasing order of visit count. */
  function FrequentVisitors<Id>(docs: seq<Patient<Id>>): (r: seq<Visitor<Id>>)
    ensures |r| <= VisitorLimit && NonIncreasing(r)
  {
    SortByCountSorted(Eligible(docs));
    LimitOfSorted(SortByCount(Eligible(docs)), VisitorLimit);
    Limit(SortByCount(Eligible(docs)), VisitorLimit)
  }

  /** At most ten rows, all with at least one visit, in non-increasing order of visit
      count, drawn from the eligible documents; and every eligible document left out
      has no more visits than any row shown. */
  lemma FrequentVisitorsCorrect<Id>(docs: seq<Patient<Id>>)
    ensures var r := FrequentVisitors(docs);
      var e := Eligible(docs);
      && |r| == (if |e| <= VisitorLimit then |e| else VisitorLimit)
      && NonIncreasing(r)
      && (forall i :: 0 <= i < |r| ==> r[i].visitCount >= 1)
      && multiset(r) <= multiset(e)
      && (forall x, i :: x in multiset(e) - multiset(r) && 0 <= i < |r| ==> x.visitCount <= r[i].visitCount)
  {
    var e := Eligible(docs);
    var s := SortByCount(e);
    assert FrequentVisitors(docs) == Limit(s, VisitorLimit);
    SortByCountSorted(e);
    RankingCorrect(docs, s);
  }

  /** The same holds whatever order the $sort gives rows with equal counts: any
      arrangement of the eligible rows in non-increasing order of visit count, cut
      to ten rows. */
  lemma RankingCorrect<Id>(docs: seq<Patient<Id>>, s: seq<Visitor<Id>>)
    requires multiset(s) == multiset(Eligible(docs)) && NonIncreasing(s)
    ensures var r := Limit(s, VisitorLimit);
      var e := Eligible(docs);
      && |r| == (if |e| <= VisitorLimit then |e| else VisitorLimit)
      && NonIncreasing(r)
      && (forall i :: 0 <= i < |r| ==> r[i].visitCount >= 1)
      && multiset(r) <= multiset(e)
      && (forall x, i :: x in multiset(e) - multiset(r) && 0 <= i < |r| ==> x.visitCount <= r[i].visitCount)
  {
    var e := Eligible(docs);
    var r := Limit(s, VisitorLimit);
    assert |s| == |multiset(s)| == |e|;
    LimitOfSorted(s, VisitorLimit);
    forall i | 0 <= i < |r| ensures r[i].visitCount >= 1 {
      assert r[i] in multiset(e);
    }
  }

  /** The first n rows of a sorted list are sorted, and no row after them has a larger
      count than any of them. */
  lemma LimitOfSorted<Id>(s: seq<Visitor<Id>>, n: nat)
    requires NonIncreasing(s)
    ensures var r := Limit(s, n);
      && NonIncreasing(r)
      && multiset(r) <= multiset(s)
      && (forall x, i :: x in multiset(s) - multiset(r) && 0 <= i < |r| ==> x.visitCount <= r[i].visitCount)
  {
    var r := Limit(s, n);
    var tail := s[|r|..];
    assert s == r + tail;
    assert multiset(s) == multiset(r) + multiset(tail);
    forall x, i | x in multiset(s) - multiset(r) && 0 <= i < |r| ensures x.visitCount <= r[i].visitCount {
      assert x in multiset(tail);
      var k :| 0 <= k < |tail| && tail[k] == x;
      assert s[|r| + k] == x && s[i] == r[i];
    }
  }
}
