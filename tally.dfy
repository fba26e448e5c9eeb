/** A counting dictionary `Record<string, number>` built by
    `counts[name] = (counts[name] || 0) + 1` and then listed with
    `Object.entries`. The entries are kept as a list in the order their names
    first occur. That is the order `Object.entries` lists non-numeric string keys
    in; keys that look like array indices (a custom procedure named "7") would
    come first in numeric order. The order only decides ties in the stable sort
    of the summary. */
module Tally {
  import Sorting

  datatype Entry = Entry(name: string, count: nat)

  function EntryCount(e: Entry): int {
    e.count
  }

  function NameOf(e: Entry): string {
    e.name
  }

  /** The sum of all counts. */
  function Total(t: seq<Entry>): int {
    Sorting.SumBy(t, EntryCount)
  }

  /** `counts[name] || 0`. */
  function CountIn(t: seq<Entry>, name: string): nat {
    if t == [] then 0
    else if t[0].name == name then t[0].count
    else CountIn(t[1..], name)
  }

  /** The names of the entries, in order (`Object.keys`). */
  function Names(t: seq<Entry>): (ns: seq<string>)
    ensures |ns| == |t|
    ensures forall i :: 0 <= i < |t| ==> ns[i] == t[i].name
  {
    if t == [] then [] else [t[0].name] + Names(t[1..])
  }

  predicate DistinctNames(t: seq<Entry>) {
    Sorting.DistinctBy(t, NameOf)
  }

  predicate AllPositive(t: seq<Entry>) {
    forall i :: 0 <= i < |t| ==> t[i].count >= 1
  }

  /** `counts[name] = (counts[name] || 0) + 1`: an existing entry is increased in
      place, a new name is appended. */
  function Bump(t: seq<Entry>, name: string): seq<Entry> {
    if t == [] then [Entry(name, 1)]
    else if t[0].name == name then [Entry(name, t[0].count + 1)] + t[1..]
    else [t[0]] + Bump(t[1..], name)
  }

  /** The dictionary after counting `names` from left to right. */
  function TallyOf(names: seq<string>): seq<Entry> {
    if names == [] then []
    else Bump(TallyOf(names[..|names| - 1]), names[|names| - 1])
  }

  // ---------------------------------------------------------------- one step

  lemma {:induction false} BumpCount(t: seq<Entry>, name: string, other: string)
    ensures CountIn(Bump(t, name), other) == CountIn(t, other) + (if other == name then 1 else 0)
  {
    if t != [] && t[0].name != name {
      BumpCount(t[1..], name, other);
    }
  }

  lemma {:induction false} BumpTotal(t: seq<Entry>, name: string)
    ensures Total(Bump(t, name)) == Total(t) + 1
  {
    if t == [] {
      assert Bump(t, name)[1..] == [];
    } else {
      if t[0].name == name {
        assert Bump(t, name)[1..] == t[1..];
      } else {
        assert Bump(t, name)[1..] == Bump(t[1..], name);
        BumpTotal(t[1..], name);
      }
    }
  }

  lemma {:induction false} BumpNames(t: seq<Entry>, name: string)
    ensures Names(Bump(t, name)) == if name in Names(t) then Names(t) else Names(t) + [name]
  {
    if t != [] && t[0].name != name {
      BumpNames(t[1..], name);
      assert Names(t) == [t[0].name] + Names(t[1..]);
    }
  }

  lemma {:induction false} BumpDistinct(t: seq<Entry>, name: string)
    requires DistinctNames(t)
    ensures DistinctNames(Bump(t, name))
  {
    var r := Bump(t, name);
    BumpNames(t, name);
    if name !in Names(t) {
      forall i, j | 0 <= i < j < |r| ensures r[i].name != r[j].name {
        assert Names(r)[i] == r[i].name && Names(r)[j] == r[j].name;
        if j == |t| {
          assert Names(t)[i] == r[i].name;
        } else {
          assert Names(t)[i] == r[i].name && Names(t)[j] == r[j].name;
        }
      }
    } else {
      forall i, j | 0 <= i < j < |r| ensures r[i].name != r[j].name {
        assert Names(r)[i] == r[i].name && Names(r)[j] == r[j].name;
        assert Names(t)[i] == t[i].name && Names(t)[j] == t[j].name;
      }
    }
  }

  lemma {:induction false} BumpPositive(t: seq<Entry>, name: string)
    requires AllPositive(t)
    ensures AllPositive(Bump(t, name))
  {
    if t != [] && t[0].name != name {
      BumpPositive(t[1..], name);
      var r := Bump(t, name);
      forall i | 0 <= i < |r| ensures r[i].count >= 1 {
        if i > 0 { assert r[i] == Bump(t[1..], name)[i - 1]; }
      }
    }
  }

  // ---------------------------------------------------------------- the whole count

  /** Each name's count is the number of times it occurs in the input. */
  lemma {:induction false} TallyCounts(names: seq<string>, name: string)
    ensures CountIn(TallyOf(names), name) == multiset(names)[name]
  {
    if names != [] {
      var init := names[..|names| - 1];
      var last := names[|names| - 1];
      TallyCounts(init, name);
      BumpCount(TallyOf(init), last, name);
      assert names == init + [last];
    }
  }

  /** The counts add up to the number of names counted. */
  lemma {:induction false} TallyTotal(names: seq<string>)
    ensures Total(TallyOf(names)) == |names|
  {
    if names != [] {
      TallyTotal(names[..|names| - 1]);
      BumpTotal(TallyOf(names[..|names| - 1]), names[|names| - 1]);
    }
  }

  /** Exactly the names that occur get an entry. */
  lemma {:induction false} TallyNames(names: seq<string>)
    ensures forall name :: name in Names(TallyOf(names)) <==> name in names
  {
    if names != [] {
      var init := names[..|names| - 1];
      var last := names[|names| - 1];
      TallyNames(init);
      BumpNames(TallyOf(init), last);
      assert names == init + [last];
    }
  }

  /** Each name has one entry, and every entry counts at least one occurrence. */
  lemma {:induction false} TallyWellFormed(names: seq<string>)
    ensures DistinctNames(TallyOf(names))
    ensures AllPositive(TallyOf(names))
  {
    if names != [] {
      TallyWellFormed(names[..|names| - 1]);
      BumpDistinct(TallyOf(names[..|names| - 1]), names[|names| - 1]);
      BumpPositive(TallyOf(names[..|names| - 1]), names[|names| - 1]);
    }
  }
}
