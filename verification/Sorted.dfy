/** Go's byte-wise string order and the sorted listing of a finite set of strings
    (`slices.Sorted(maps.Keys(m))`, `slices.Sort`). */
module Sorted {

  predicate Le(a: string, b: string) {
    a == "" || (b != "" && (a[0] < b[0] || (a[0] == b[0] && Le(a[1..], b[1..]))))
  }

  predicate Lt(a: string, b: string) {
    Le(a, b) && a != b
  }

  lemma {:induction false} LeReflexive(a: string)
    ensures Le(a, a)
  {
    if a != "" { LeReflexive(a[1..]); }
  }

  lemma {:induction false} LeTotal(a: string, b: string)
    ensures Le(a, b) || Le(b, a)
  {
    if a != "" && b != "" && a[0] == b[0] { LeTotal(a[1..], b[1..]); }
  }

  lemma {:induction false} LeAntisymmetric(a: string, b: string)
    requires Le(a, b) && Le(b, a)
    ensures a == b
  {
    if a != "" {
      LeAntisymmetric(a[1..], b[1..]);
      assert a == [a[0]] + a[1..] && b == [b[0]] + b[1..];
    }
  }

  lemma {:induction false} LeTransitive(a: string, b: string, c: string)
    requires Le(a, b) && Le(b, c)
    ensures Le(a, c)
  {
    if a != "" && a[0] == b[0] == c[0] { LeTransitive(a[1..], b[1..], c[1..]); }
  }

  lemma LtTransitive(a: string, b: string, c: string)
    requires Lt(a, b) && Lt(b, c)
    ensures Lt(a, c)
  {
    LeTransitive(a, b, c);
    if a == c { LeAntisymmetric(a, b); }
  }

  function Elements<T>(s: seq<T>): set<T>
  {
    set x | x in s
  }

  lemma SubsetSize<T>(a: set<T>, b: set<T>)
    requires a <= b
    ensures |a| <= |b|
    ensures |a| == |b| ==> a == b
  {
    assert b == a + (b - a);
  }

  predicate NoDuplicates<T(==)>(s: seq<T>) {
    forall i, j | 0 <= i < j < |s| :: s[i] != s[j]
  }

  predicate StrictlySorted(s: seq<string>) {
    forall i, j | 0 <= i < j < |s| :: Lt(s[i], s[j])
  }

  /** `s` lists the members of `S`, each once, in increasing order. */
  ghost predicate Lists(s: seq<string>, S: set<string>) {
    StrictlySorted(s) && Elements(s) == S
  }

  lemma TailLists(s: seq<string>, S: set<string>)
    requires Lists(s, S) && s != []
    ensures Lists(s[1..], S - {s[0]})
    ensures s[0] in S && forall x | x in S :: Le(s[0], x)
  {
    forall x | x in S
      ensures Le(s[0], x)
    {
      LeReflexive(x);
      var i :| 0 <= i < |s| && s[i] == x;
    }
    forall x ensures x in Elements(s[1..]) <==> x in S - {s[0]} {
      if x in S - {s[0]} {
        var i :| 0 <= i < |s| && s[i] == x;
        assert s[1..][i - 1] == x;
      }
      if x in s[1..] {
        var i :| 0 <= i < |s[1..]| && s[1..][i] == x;
        assert s[i + 1] == x;
      }
    }
  }

  /** A set has one sorted listing. */
  lemma {:induction false} ListingIsUnique(s: seq<string>, t: seq<string>, S: set<string>)
    requires Lists(s, S) && Lists(t, S)
    ensures s == t
  {
    assert s != [] ==> s[0] in Elements(s);
    assert t != [] ==> t[0] in Elements(t);
    if s != [] && t != [] {
      TailLists(s, S);
      TailLists(t, S);
      LeAntisymmetric(s[0], t[0]);
      ListingIsUnique(s[1..], t[1..], S - {s[0]});
      assert s == [s[0]] + s[1..] && t == [t[0]] + t[1..];
    }
  }

  /** Inserts `x` in front of the first larger element. */
  function Insert(x: string, s: seq<string>): (r: seq<string>)
    requires StrictlySorted(s) && x !in s
    ensures Lists(r, Elements(s) + {x})
  {
    if s == [] then
      [x]
    else if Le(x, s[0]) then
      assert StrictlySorted([x] + s) by {
        forall j | 0 < j < |s| ensures Lt(x, s[j]) { LtTransitive(x, s[0], s[j]); }
      }
      [x] + s
    else
      assert StrictlySorted(s[1..]);
      var rest := Insert(x, s[1..]);
      assert Lists([s[0]] + rest, Elements(s) + {x}) by {
        LeTotal(x, s[0]);
        forall y | y in rest ensures Lt(s[0], y) {
          assert y in Elements(rest);
          assert y in s[1..] || y == x;
        }
        assert Elements(s) == Elements(s[1..]) + {s[0]} by { assert s == [s[0]] + s[1..]; }
      }
      [s[0]] + rest
  }

  /** The sorted listing of a set. */
  ghost function SortedList(S: set<string>): (r: seq<string>)
    ensures Lists(r, S)
  {
    if S == {} then
      []
    else
      var x :| x in S;
      var rest := SortedList(S - {x});
      assert x !in rest by { assert x !in Elements(rest); }
      Insert(x, rest)
  }

  lemma SortedListIs(s: seq<string>, S: set<string>)
    requires Lists(s, S)
    ensures s == SortedList(S)
  {
    ListingIsUnique(s, SortedList(S), S);
  }

  /** `slices.Sorted(maps.Keys(m))`: the keys come in any order, the listing does not depend on it. */
  method SortedKeys(S: set<string>) returns (r: seq<string>)
    ensures r == SortedList(S)
  {
    r := [];
    var todo := S;
    while todo != {}
      invariant todo <= S && Lists(r, S - todo)
      decreases |todo|
    {
      var x :| x in todo;
      assert x !in r by { assert x !in Elements(r); }
      r := Insert(x, r);
      assert S - (todo - {x}) == S - todo + {x};
      todo := todo - {x};
    }
    assert S - {} == S;
    SortedListIs(r, S);
  }
}
