/** Label overrides: the labels of a sample are cleaned, overridden and completed from a map, whose iteration
    order is arbitrary.  The result does not depend on that order. */
module SeriesLabels {
  import opened Sorted
  import opened Compaction

  /** A label pair as its getters show it: a nil name or value reads as empty. */
  datatype Label = Label(name: string, value: string)

  type Overrides = map<string, string>

  // ---- insertion by name -----------------------------------------------------------------------

  /** The label moves left past larger names only. */
  function InsertByName(s: seq<Label>, l: Label): (r: seq<Label>)
    ensures |r| == |s| + 1
  {
    if s != [] && Lt(l.name, s[|s| - 1].name) then InsertByName(s[..|s| - 1], l) + [s[|s| - 1]] else s + [l]
  }

  ghost predicate SortedByName(s: seq<Label>) {
    forall i, j | 0 <= i < j < |s| :: Le(s[i].name, s[j].name)
  }

  lemma {:induction false} InsertKeeps(s: seq<Label>, l: Label)
    ensures multiset(InsertByName(s, l)) == multiset(s) + multiset{l}
  {
    if s != [] && Lt(l.name, s[|s| - 1].name) {
      InsertKeeps(s[..|s| - 1], l);
      assert s == s[..|s| - 1] + [s[|s| - 1]];
    }
  }

  lemma InsertedIn(s: seq<Label>, l: Label, x: Label)
    ensures x in InsertByName(s, l) <==> x in s || x == l
  {
    InsertKeeps(s, l);
    assert x in InsertByName(s, l) <==> x in multiset(InsertByName(s, l));
  }

  lemma {:induction false} InsertSorts(s: seq<Label>, l: Label)
    requires SortedByName(s)
    ensures SortedByName(InsertByName(s, l))
  {
    if s != [] {
      var init, last := s[..|s| - 1], s[|s| - 1];
      if Lt(l.name, last.name) {
        InsertSorts(init, l);
        var r := InsertByName(init, l);
        forall i | 0 <= i < |r| ensures Le(r[i].name, last.name) {
          InsertedIn(init, l, r[i]);
        }
      } else {
        LeTotal(l.name, last.name);
        forall i | 0 <= i < |s| ensures Le(s[i].name, l.name) {
          if i < |s| - 1 { LeTransitive(s[i].name, last.name, l.name); }
        }
      }
    }
  }

  lemma LtTotal(a: string, b: string)
    ensures a == b || (Lt(a, b) <==> !Lt(b, a))
  {
    LeTotal(a, b);
    if Le(a, b) && Le(b, a) { LeAntisymmetric(a, b); }
  }

  /** Labels of different names may be inserted in either order. */
  lemma {:induction false} InsertsCommute(s: seq<Label>, a: Label, b: Label)
    requires a.name != b.name
    ensures InsertByName(InsertByName(s, a), b) == InsertByName(InsertByName(s, b), a)
  {
    LtTotal(a.name, b.name);
    if s == [] {
      assert [a][..0] == [] == [b][..0];
    } else {
      var init, last := s[..|s| - 1], s[|s| - 1];
      LtTotal(a.name, last.name);
      LtTotal(b.name, last.name);
      if Lt(a.name, last.name) && Lt(b.name, last.name) {
        InsertsCommute(init, a, b);
        BothBefore(s, a, b);
        BothBefore(s, b, a);
      } else if Lt(a.name, last.name) {
        CommuteAcross(s, a, b);
      } else if Lt(b.name, last.name) {
        CommuteAcross(s, b, a);
      } else {
        assert (s + [a])[..|s|] == s == (s + [b])[..|s|];
      }
    }
  }

  lemma BothBefore(s: seq<Label>, a: Label, b: Label)
    requires s != [] && Lt(a.name, s[|s| - 1].name) && Lt(b.name, s[|s| - 1].name)
    ensures InsertByName(InsertByName(s, a), b)
         == InsertByName(InsertByName(s[..|s| - 1], a), b) + [s[|s| - 1]]
  {
    var inserted := InsertByName(s[..|s| - 1], a);
    assert (inserted + [s[|s| - 1]])[..|s|] == inserted;
  }

  lemma CommuteAcross(s: seq<Label>, a: Label, b: Label)
    requires s != [] && Lt(a.name, s[|s| - 1].name) && !Lt(b.name, s[|s| - 1].name) && a.name != b.name
    ensures InsertByName(InsertByName(s, a), b) == InsertByName(InsertByName(s, b), a)
  {
    var last := s[|s| - 1];
    LeTotal(b.name, last.name);
    LtTotal(b.name, last.name);
    if last.name != b.name { LtTransitive(a.name, last.name, b.name); }
    assert (s + [b])[..|s|] == s;
  }

  /** `insertLexicographicallyByName`: append, then swap to the left. */
  method InsertLexicographicallyByName(existing: seq<Label>, value: Label) returns (r: seq<Label>)
    ensures r == InsertByName(existing, value)
  {
    r := existing + [value];
    var i := |existing|;
    assert existing[..i] == existing;
    while i > 0 && Lt(r[i].name, r[i - 1].name)
      invariant 0 <= i <= |existing|
      invariant r == existing[..i] + [value] + existing[i..]
      invariant InsertByName(existing, value) == InsertByName(existing[..i], value) + existing[i..]
    {
      assert existing[..i][..i - 1] == existing[..i - 1] && existing[i - 1..] == [existing[i - 1]] + existing[i..];
      r := r[i := r[i - 1]][i - 1 := r[i]];
      i := i - 1;
    }
  }

  // ---- lists of labels, name by name -----------------------------------------------------------

  function Named(n: string): Label -> bool {
    (l: Label) => l.name == n
  }

  /** The labels of one name, in order. */
  function Of(s: seq<Label>, n: string): seq<Label> {
    Kept(s, Named(n))
  }

  lemma OfPush(s: seq<Label>, l: Label, n: string)
    ensures Of(s + [l], n) == if l.name == n then Of(s, n) + [l] else Of(s, n)
  {
    assert (s + [l])[..|s|] == s;
  }

  lemma OfHas(s: seq<Label>, l: Label)
    ensures l in s <==> l in Of(s, l.name)
    ensures forall x | x in s :: Of(s, x.name) != []
  {
    KeptMeans(s, Named(l.name));
    assert l in s ==> l in multiset(s) && Named(l.name)(l);
    forall x | x in s ensures Of(s, x.name) != [] {
      KeptMeans(s, Named(x.name));
      assert x in multiset(s) && Named(x.name)(x);
    }
  }

  lemma FirstShows(s: seq<Label>)
    ensures s != [] ==> Of(s, s[0].name) != []
  {
    if s != [] {
      OfHas(s, s[0]);
      assert s[0] in s;
    }
  }

  lemma LastShows(r: seq<Label>, a: Label, t: seq<Label>, b: Label)
    requires a.name == b.name && forall n :: Of(r + [a], n) == Of(t + [b], n)
    ensures a == b && forall n :: Of(r, n) == Of(t, n)
  {
    OfPush(r, a, a.name);
    OfPush(t, b, a.name);
    assert (Of(r, a.name) + [a])[|Of(r, a.name)|] == (Of(t, a.name) + [b])[|Of(r, a.name)|];
    assert Of(r, a.name) == (Of(r, a.name) + [a])[..|Of(r, a.name)|];
    assert Of(t, a.name) == (Of(t, a.name) + [b])[..|Of(t, a.name)|];
    forall n ensures Of(r, n) == Of(t, n) {
      OfPush(r, a, n);
      OfPush(t, b, n);
    }
  }

  /** A sorted list is known by its labels name by name. */
  lemma {:induction false} SortedIsUnique(r: seq<Label>, t: seq<Label>)
    requires SortedByName(r) && SortedByName(t) && forall n :: Of(r, n) == Of(t, n)
    ensures r == t
  {
    FirstShows(r);
    FirstShows(t);
    if r != [] {
      var r0, a, t0, b := r[..|r| - 1], r[|r| - 1], t[..|t| - 1], t[|t| - 1];
      assert r == r0 + [a] && t == t0 + [b];
      SameLast(r, t);
      LastShows(r0, a, t0, b);
      SortedIsUnique(r0, t0);
    }
  }

  lemma SameLast(r: seq<Label>, t: seq<Label>)
    requires SortedByName(r) && SortedByName(t) && r != [] && t != [] && forall n :: Of(r, n) == Of(t, n)
    ensures r[|r| - 1].name == t[|t| - 1].name
  {
    LastIsLargest(r, t);
    LastIsLargest(t, r);
    LeAntisymmetric(r[|r| - 1].name, t[|t| - 1].name);
  }

  lemma LastIsLargest(r: seq<Label>, t: seq<Label>)
    requires SortedByName(t) && r != [] && t != [] && forall n :: Of(r, n) == Of(t, n)
    ensures Le(r[|r| - 1].name, t[|t| - 1].name)
  {
    var a := r[|r| - 1];
    assert a in r;
    OfHas(r, a);
    OfHas(t, a);
    var i :| 0 <= i < |t| && t[i] == a;
    LeReflexive(a.name);
  }

  /** Insertion is stable: it comes after the labels of the same name. */
  lemma {:induction false} InsertIsStable(s: seq<Label>, l: Label, n: string)
    ensures Of(InsertByName(s, l), n) == if l.name == n then Of(s, n) + [l] else Of(s, n)
  {
    if s != [] && Lt(l.name, s[|s| - 1].name) {
      var init, last := s[..|s| - 1], s[|s| - 1];
      InsertIsStable(init, l, n);
      OfPush(InsertByName(init, l), last, n);
    } else {
      OfPush(s, l, n);
    }
  }

  function SortByName(s: seq<Label>): seq<Label> {
    if s == [] then [] else InsertByName(SortByName(s[..|s| - 1]), s[|s| - 1])
  }

  lemma {:induction false} SortSorts(s: seq<Label>, n: string)
    ensures SortedByName(SortByName(s))
    ensures Of(SortByName(s), n) == Of(s, n)
  {
    if s != [] {
      SortSorts(s[..|s| - 1], n);
      InsertSorts(SortByName(s[..|s| - 1]), s[|s| - 1]);
      InsertIsStable(SortByName(s[..|s| - 1]), s[|s| - 1], n);
    }
  }

  // ---- overriding ------------------------------------------------------------------------------

  predicate NonEmpty(l: Label) {
    l.name != "" && l.value != ""
  }

  function Override(l: Label, overrides: Overrides): Label {
    if l.name in overrides then Label(l.name, overrides[l.name]) else l
  }

  function OverrideAll(s: seq<Label>, overrides: Overrides): (r: seq<Label>)
    ensures |r| == |s| && forall i | 0 <= i < |s| :: r[i] == Override(s[i], overrides)
  {
    if s == [] then [] else OverrideAll(s[..|s| - 1], overrides) + [Override(s[|s| - 1], overrides)]
  }

  lemma {:induction false} OverrideOf(s: seq<Label>, overrides: Overrides, n: string)
    ensures Of(OverrideAll(s, overrides), n) == OverrideAll(Of(s, n), overrides)
  {
    if s != [] {
      var init := s[..|s| - 1];
      OverrideOf(init, overrides, n);
      OfPush(OverrideAll(init, overrides), Override(s[|s| - 1], overrides), n);
    }
  }

  /** The overrides that no label has a name for; empty names and values do not count. */
  ghost function Extras(base: seq<Label>, overrides: Overrides): set<string> {
    set k | k in overrides && k != "" && overrides[k] != "" && Of(base, k) == []
  }

  ghost function InsertSet(base: seq<Label>, S: set<string>, overrides: Overrides): seq<Label>
    requires S <= overrides.Keys
  {
    if S == {} then base
    else
      var x :| x in S;
      InsertByName(InsertSet(base, S - {x}, overrides), Label(x, overrides[x]))
  }

  /** Whichever member of the set comes last, the result is the same. */
  lemma {:induction false} InsertSetWith(base: seq<Label>, S: set<string>, y: string, overrides: Overrides)
    requires S <= overrides.Keys && y in S
    ensures InsertSet(base, S, overrides)
         == InsertByName(InsertSet(base, S - {y}, overrides), Label(y, overrides[y]))
    decreases |S|
  {
    var x :| x in S && InsertSet(base, S, overrides)
                    == InsertByName(InsertSet(base, S - {x}, overrides), Label(x, overrides[x]));
    if x != y {
      InsertSetWith(base, S - {x}, y, overrides);
      InsertSetWith(base, S - {y}, x, overrides);
      assert S - {x} - {y} == S - {y} - {x};
      InsertsCommute(InsertSet(base, S - {x} - {y}, overrides), Label(x, overrides[x]), Label(y, overrides[y]));
    }
  }

  lemma {:induction false} InsertSetOf(base: seq<Label>, S: set<string>, overrides: Overrides, n: string)
    requires S <= overrides.Keys && SortedByName(base)
    ensures SortedByName(InsertSet(base, S, overrides))
    ensures Of(InsertSet(base, S, overrides), n)
         == Of(base, n) + if n in S then [Label(n, overrides[n])] else []
    decreases |S|
  {
    if S != {} {
      var x :| x in S;
      InsertSetWith(base, S, x, overrides);
      InsertSetOf(base, S - {x}, overrides, n);
      InsertSorts(InsertSet(base, S - {x}, overrides), Label(x, overrides[x]));
      InsertIsStable(InsertSet(base, S - {x}, overrides), Label(x, overrides[x]), n);
    }
  }

  lemma OneMoreExtra(base: seq<Label>, extras: set<string>, todo: set<string>, k: string, overrides: Overrides)
    requires extras <= overrides.Keys && k in todo
    ensures InsertSet(base, extras - (todo - {k}), overrides)
         == if k in extras then InsertByName(InsertSet(base, extras - todo, overrides), Label(k, overrides[k]))
            else InsertSet(base, extras - todo, overrides)
  {
    if k in extras {
      InsertSetWith(base, extras - (todo - {k}), k, overrides);
      assert extras - (todo - {k}) - {k} == extras - todo;
    } else {
      assert extras - (todo - {k}) == extras - todo;
    }
  }

  ghost function Base(existing: seq<Label>, overrides: Overrides): seq<Label> {
    OverrideAll(SortByName(Kept(existing, NonEmpty)), overrides)
  }

  ghost function Appended(existing: seq<Label>, overrides: Overrides): seq<Label> {
    InsertSet(Base(existing, overrides), Extras(Base(existing, overrides), overrides), overrides)
  }

  /** What one name should end up with: its non-empty labels overridden, or the override if there are none. */
  ghost function WantedOf(existing: seq<Label>, overrides: Overrides, n: string): seq<Label> {
    var own := Of(Kept(existing, NonEmpty), n);
    if own == [] && n in overrides && NonEmpty(Label(n, overrides[n])) then [Label(n, overrides[n])]
    else OverrideAll(own, overrides)
  }

  lemma OverrideSorted(s: seq<Label>, overrides: Overrides)
    requires SortedByName(s)
    ensures SortedByName(OverrideAll(s, overrides))
  {
  }

  lemma AppendedOf(existing: seq<Label>, overrides: Overrides, n: string)
    ensures SortedByName(Appended(existing, overrides))
    ensures Of(Appended(existing, overrides), n) == WantedOf(existing, overrides, n)
  {
    var kept := Kept(existing, NonEmpty);
    SortSorts(kept, n);
    OverrideSorted(SortByName(kept), overrides);
    OverrideOf(SortByName(kept), overrides, n);
    InsertSetOf(Base(existing, overrides), Extras(Base(existing, overrides), overrides), overrides, n);
  }

  /** The result is the one list that is sorted by name and has, name by name, the wanted labels: it is the same
      for every iteration order of the overrides. */
  lemma AppendedExactly(existing: seq<Label>, overrides: Overrides, r: seq<Label>)
    ensures r == Appended(existing, overrides) <==>
            SortedByName(r) && forall n :: Of(r, n) == WantedOf(existing, overrides, n)
  {
    var a := Appended(existing, overrides);
    AppendedOf(existing, overrides, "");
    forall n ensures Of(a, n) == WantedOf(existing, overrides, n) {
      AppendedOf(existing, overrides, n);
    }
    if SortedByName(r) && forall n :: Of(r, n) == WantedOf(existing, overrides, n) {
      assert forall n :: Of(r, n) == Of(a, n);
      SortedIsUnique(r, a);
    }
  }

  /** In other words: no label without a name or value comes out, other than by an empty override; every proper label
      that is not overridden is still there; and every proper override is there. */
  lemma AppendedMeans(existing: seq<Label>, overrides: Overrides, l: Label)
    ensures l in Appended(existing, overrides) ==>
              l.name != "" && (l.value != "" || (l.name in overrides && overrides[l.name] == ""))
    ensures l in existing && l.name != "" && l.value != "" && l.name !in overrides ==>
            l in Appended(existing, overrides)
    ensures l.name in overrides && overrides[l.name] == l.value && l.name != "" && l.value != "" ==>
              l in Appended(existing, overrides)
  {
    var a, kept := Appended(existing, overrides), Kept(existing, NonEmpty);
    var own := Of(kept, l.name);
    AppendedOf(existing, overrides, l.name);
    OfHas(a, l);
    OfHas(kept, l);
    KeptMeans(existing, NonEmpty);
    KeptMeans(kept, Named(l.name));
    OfMeans(a, l.name);
    assert l in existing && NonEmpty(l) ==> l in kept by {
      assert l in existing <==> l in multiset(existing);
      assert l in kept <==> l in multiset(kept);
    }
    assert own != [] ==> own[0] in own;
  }

  lemma OfMeans(s: seq<Label>, n: string)
    ensures forall l | l in Of(s, n) :: l in s && l.name == n
  {
    KeptMeans(s, Named(n));
  }

  lemma FoundMeans(base: seq<Label>, overrides: Overrides, found: set<string>)
    requires forall n :: n in found <==> n in overrides && exists k | 0 <= k < |base| :: base[k].name == n
    ensures forall n | n in overrides :: n in found <==> Of(base, n) != []
  {
    forall n | n in overrides ensures n in found <==> Of(base, n) != [] {
      if n in found {
        var k :| 0 <= k < |base| && base[k].name == n;
        OfHas(base, base[k]);
      }
      if Of(base, n) != [] {
        KeptMeans(base, Named(n));
        assert Of(base, n)[0] in base;
      }
    }
  }

  /** The first loop of `appendLabels`. */
  method WithoutEmpties(existing: seq<Label>) returns (r: seq<Label>)
    ensures r == SortByName(Kept(existing, NonEmpty))
  {
    r := [];
    for i := 0 to |existing|
      invariant r == SortByName(Kept(existing[..i], NonEmpty))
    {
      KeptOneMore(existing, i, NonEmpty);
      if existing[i].name != "" && existing[i].value != "" {
        ghost var kept := Kept(existing[..i], NonEmpty);
        assert (kept + [existing[i]])[..|kept|] == kept;
        r := InsertLexicographicallyByName(r, existing[i]);
      }
    }
    assert existing[..|existing|] == existing;
  }

  /** The second loop: the overridden labels, and the names found. */
  method OverrideExisting(existing: seq<Label>, overrides: Overrides) returns (r: seq<Label>, found: set<string>)
    ensures r == OverrideAll(existing, overrides)
    ensures forall n | n in overrides :: n in found <==> Of(r, n) != []
  {
    r, found := existing, {};
    for i := 0 to |r|
      invariant |r| == |existing|
      invariant forall k | 0 <= k < |r| :: r[k] == if k < i then Override(existing[k], overrides) else existing[k]
      invariant forall n :: n in found <==> n in overrides && exists k | 0 <= k < i :: existing[k].name == n
    {
      var name := r[i].name;
      if name in overrides {
        r := r[i := Label(name, overrides[name])];
        found := found + {name};
      }
    }
    assert forall k | 0 <= k < |r| :: r[k].name == existing[k].name;
    FoundMeans(r, overrides, found);
  }

  /** `appendLabels`; the last loop meets the overrides in any order. */
  method AppendLabels(existing: seq<Label>, overrides: Overrides) returns (r: seq<Label>)
    ensures r == Appended(existing, overrides)
  {
    var withoutEmpties := WithoutEmpties(existing);
    var base, found := OverrideExisting(withoutEmpties, overrides);
    ghost var extras := Extras(base, overrides);
    r := base;
    var todo := overrides.Keys;
    assert extras - todo == {};
    while todo != {}
      invariant todo <= overrides.Keys && r == InsertSet(base, extras - todo, overrides)
      decreases |todo|
    {
      var k :| k in todo;
      OneMoreExtra(base, extras, todo, k, overrides);
      if k != "" && overrides[k] != "" && k !in found {
        r := InsertLexicographicallyByName(r, Label(k, overrides[k]));
      }
      todo := todo - {k};
    }
    assert extras - {} == extras;
  }
}
