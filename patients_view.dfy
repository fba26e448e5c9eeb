/** The patient list and its search box: the patients whose name contains the
    query, ignoring letter case. */
module PatientsView {
  import opened Text
  import opened Types

  /** `p.name.toLowerCase().includes(lowerCaseQuery)`. */
  predicate NameMatches(p: Patient, lowerQuery: string) {
    Includes(ToLower(p.name), lowerQuery)
  }

  /** `patients.filter(...)`. */
  function Matching(patients: seq<Patient>, lowerQuery: string): seq<Patient> {
    if patients == [] then []
    else
      var rest := Matching(patients[1..], lowerQuery);
      if NameMatches(patients[0], lowerQuery) then [patients[0]] + rest else rest
  }

  /** `filteredPatients`: the whole list for an empty query, otherwise the matches. */
  function FilterPatients(patients: seq<Patient>, query: string): seq<Patient> {
    var lowerQuery := ToLower(query);
    if lowerQuery == [] then patients else Matching(patients, lowerQuery)
  }

  /** `a` is `b` with some elements left out, the rest in their order. */
  ghost predicate Subsequence<T>(a: seq<T>, b: seq<T>)
    decreases |b|
  {
    if a == [] then true
    else if b == [] then false
    else (a[0] == b[0] && Subsequence(a[1..], b[1..])) || Subsequence(a, b[1..])
  }

  lemma {:induction false} MatchingSpec(patients: seq<Patient>, lowerQuery: string)
    ensures forall p :: p in Matching(patients, lowerQuery) <==> p in patients && NameMatches(p, lowerQuery)
    ensures Subsequence(Matching(patients, lowerQuery), patients)
    ensures |Matching(patients, lowerQuery)| <= |patients|
  {
    if patients != [] {
      var rest := Matching(patients[1..], lowerQuery);
      MatchingSpec(patients[1..], lowerQuery);
      assert forall p :: p in patients <==> p == patients[0] || p in patients[1..];
      if NameMatches(patients[0], lowerQuery) {
        assert ([patients[0]] + rest)[1..] == rest;
      } else {
        SubsequenceOfTail(rest, patients);
      }
    }
  }

  lemma SubsequenceOfTail<T>(a: seq<T>, b: seq<T>)
    requires b != [] && Subsequence(a, b[1..])
    ensures Subsequence(a, b)
  {
  }

  /** An empty query lists every patient, in the stored order. */
  lemma EmptyQueryKeepsAll(patients: seq<Patient>)
    ensures FilterPatients(patients, "") == patients
  {
  }

  /** The search keeps exactly the patients whose lower-cased name contains the
      lower-cased query, in their order, and never lists more than there are. */
  lemma FilterSpec(patients: seq<Patient>, query: string)
    ensures ToLower(query) == [] <==> query == []
    ensures query != [] ==> forall p :: p in FilterPatients(patients, query) <==>
      (p in patients && Includes(ToLower(p.name), ToLower(query)))
    ensures Subsequence(FilterPatients(patients, query), patients)
    ensures |FilterPatients(patients, query)| <= |patients|
  {
    MatchingSpec(patients, ToLower(query));
    if ToLower(query) == [] {
      SubsequenceReflexive(patients);
    }
  }

  lemma {:induction false} SubsequenceReflexive<T>(a: seq<T>)
    ensures Subsequence(a, a)
    decreases |a|
  {
    if a != [] {
      SubsequenceReflexive(a[1..]);
    }
  }

  /** Letter case in the query does not matter. */
  lemma QueryCaseIgnored(patients: seq<Patient>, query: string, other: string)
    requires ToLower(query) == ToLower(other)
    ensures FilterPatients(patients, query) == FilterPatients(patients, other)
  {
  }

  /** A kept patient keeps its position relative to the others: two patients listed
      in one order by the search are stored in that order. */
  lemma {:induction false} SubsequenceOrder<T>(a: seq<T>, b: seq<T>, i: nat, j: nat)
    requires Subsequence(a, b)
    requires i < j < |a|
    ensures exists x, y :: 0 <= x < y < |b| && b[x] == a[i] && b[y] == a[j]
    decreases |b|
  {
    if a[0] == b[0] && Subsequence(a[1..], b[1..]) {
      if i == 0 {
        SubsequenceMember(a[1..], b[1..], j - 1);
        var y :| 0 <= y < |b[1..]| && b[1..][y] == a[j];
        assert b[y + 1] == a[j];
      } else {
        SubsequenceOrder(a[1..], b[1..], i - 1, j - 1);
        var x, y :| 0 <= x < y < |b[1..]| && b[1..][x] == a[i] && b[1..][y] == a[j];
        assert b[x + 1] == a[i] && b[y + 1] == a[j];
      }
    } else {
      SubsequenceOrder(a, b[1..], i, j);
      var x, y :| 0 <= x < y < |b[1..]| && b[1..][x] == a[i] && b[1..][y] == a[j];
      assert b[x + 1] == a[i] && b[y + 1] == a[j];
    }
  }

  lemma {:induction false} SubsequenceMember<T>(a: seq<T>, b: seq<T>, i: nat)
    requires Subsequence(a, b)
    requires i < |a|
    ensures exists y :: 0 <= y < |b| && b[y] == a[i]
    decreases |b|
  {
    if a[0] == b[0] && Subsequence(a[1..], b[1..]) {
      if i == 0 {
        assert b[0] == a[0];
      } else {
        SubsequenceMember(a[1..], b[1..], i - 1);
        var y :| 0 <= y < |b[1..]| && b[1..][y] == a[i];
        assert b[y + 1] == a[i];
      }
    } else {
      SubsequenceMember(a, b[1..], i);
      var y :| 0 <= y < |b[1..]| && b[1..][y] == a[i];
      assert b[y + 1] == a[i];
    }
  }
}
