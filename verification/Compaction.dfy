/** In-place compaction: holes in a slice are filled from the right with a second cursor that only moves
    forward.  `PackMetrics`, `Pack` and `PackLabels` run the same loop on different entries. */
module Compaction {

  /** The entries worth keeping, in their original order. */
  function Kept<T>(s: seq<T>, keep: T -> bool): seq<T> {
    if s == [] then []
    else if keep(s[|s| - 1]) then Kept(s[..|s| - 1], keep) + [s[|s| - 1]]
    else Kept(s[..|s| - 1], keep)
  }

  lemma {:induction false} KeptAppends<T>(s: seq<T>, t: seq<T>, keep: T -> bool)
    ensures Kept(s + t, keep) == Kept(s, keep) + Kept(t, keep)
  {
    if t == [] {
      assert s + t == s;
    } else {
      KeptAppends(s, t[..|t| - 1], keep);
      assert (s + t)[..|s + t| - 1] == s + t[..|t| - 1];
    }
  }

  /** Filtering twice: what the second filter wants is either all let through by the first, or all gone. */
  lemma {:induction false} KeptOfKept<T(!new)>(s: seq<T>, p: T -> bool, q: T -> bool)
    ensures (forall x | q(x) :: p(x)) ==> Kept(Kept(s, p), q) == Kept(s, q)
    ensures (forall x | q(x) :: !p(x)) ==> Kept(Kept(s, p), q) == []
  {
    if s != [] {
      var init, last := s[..|s| - 1], s[|s| - 1];
      KeptOfKept(init, p, q);
      KeptAppends(Kept(init, p), [last], q);
      assert [last][..0] == [];
    }
  }

  lemma KeptOneMore<T>(s: seq<T>, k: nat, keep: T -> bool)
    requires k < |s|
    ensures Kept(s[..k + 1], keep) == if keep(s[k]) then Kept(s[..k], keep) + [s[k]] else Kept(s[..k], keep)
  {
    assert s[..k + 1][..k] == s[..k];
  }

  /** Every kept entry passes, and nothing that passes is lost or multiplied. */
  lemma {:induction false} KeptMeans<T>(s: seq<T>, keep: T -> bool)
    ensures forall x | x in Kept(s, keep) :: x in s && keep(x)
    ensures forall x | keep(x) :: multiset(Kept(s, keep))[x] == multiset(s)[x]
  {
    if s != [] {
      KeptMeans(s[..|s| - 1], keep);
      assert s == s[..|s| - 1] + [s[|s| - 1]];
    }
  }

  /** The inner scan: from `next`, the first entry worth keeping. */
  method NextKept<T>(a: array<T>, next: nat, keep: T -> bool) returns (k: nat)
    requires next <= a.Length
    ensures next <= k <= a.Length
    ensures forall m | next <= m < k :: !keep(a[m])
    ensures k < a.Length ==> keep(a[k])
  {
    k := next;
    while k < a.Length && !keep(a[k])
      invariant next <= k <= a.Length
      invariant forall m | next <= m < k :: !keep(a[m])
    {
      k := k + 1;
    }
  }

  lemma {:induction false} KeptSkips<T>(s: seq<T>, i: nat, k: nat, keep: T -> bool)
    requires i <= k <= |s| && forall m | i <= m < k :: !keep(s[m])
    ensures Kept(s[..k], keep) == Kept(s[..i], keep)
  {
    if i < k {
      KeptOneMore(s, k - 1, keep);
      KeptSkips(s, i, k - 1, keep);
    }
  }

  /** The first `i` cells are done; the second cursor has emptied everything up to `c`, which is
      still as it was beyond. */
  ghost predicate Compacted<T>(now: seq<T>, was: seq<T>, i: nat, c: nat, keep: T -> bool) {
    && i <= c <= |now| == |was|
    && now[..i] == Kept(was[..c], keep)
    && (forall m | i <= m < c :: !keep(now[m]))
    && now[c..] == was[c..]
  }

  lemma KeepsCell<T>(now: seq<T>, was: seq<T>, i: nat, keep: T -> bool)
    requires Compacted(now, was, i, i, keep) && i < |now| && keep(now[i])
    ensures Compacted(now, was, i + 1, i + 1, keep)
  {
    assert now[i] == now[i..][0] == was[i..][0];
    KeptOneMore(was, i, keep);
    assert now[i + 1..] == now[i..][1..] && was[i + 1..] == was[i..][1..];
  }

  lemma SkipsCells<T>(now: seq<T>, was: seq<T>, i: nat, c: nat, k: nat, keep: T -> bool)
    requires Compacted(now, was, i, c, keep) && c <= k <= |now|
    requires forall m | c <= m < k :: !keep(now[m])
    ensures Compacted(now, was, i, k, keep)
  {
    forall m | c <= m < |now| ensures now[m] == was[m] {
      assert now[m] == now[c..][m - c] && was[m] == was[c..][m - c];
    }
    KeptSkips(was, c, k, keep);
  }

  lemma FillsCell<T>(now: seq<T>, was: seq<T>, i: nat, k: nat, keep: T -> bool, hole: T)
    requires Compacted(now, was, i, k, keep) && i < k < |now| && keep(now[k]) && !keep(hole)
    ensures Compacted(now[i := now[k]][k := hole], was, i + 1, k + 1, keep)
  {
    assert now[k] == now[k..][0] == was[k..][0];
    KeptOneMore(was, k, keep);
    var next := now[i := now[k]][k := hole];
    assert next[..i + 1] == now[..i] + [now[k]];
    assert next[k + 1..] == now[k..][1..] && was[k + 1..] == was[k..][1..];
  }

  /** The shared loop: the kept entries end up in front, in order, and the first `n` cells are the result;
      `probes` counts the cells the second cursor looked at, over the whole loop. */
  method Compact<T>(a: array<T>, keep: T -> bool, hole: T) returns (n: nat, probes: nat)
    requires !keep(hole)
    modifies a
    ensures n <= a.Length
    ensures a[..n] == Kept(old(a[..]), keep)
    ensures probes <= a.Length
  {
    var j := a.Length;
    var next := 0;
    probes := 0;
    ghost var was := a[..];
    for i := 0 to j
      invariant next <= j && probes <= next
      invariant Compacted(a[..], was, i, if next <= i then i else next, keep)
    {
      if keep(a[i]) {
        KeepsCell(a[..], was, i, keep);
        continue;
      }
      if next <= i {
        SkipsCells(a[..], was, i, i, i + 1, keep);
        next := i + 1;
      }
      var k := NextKept(a, next, keep);
      SkipsCells(a[..], was, i, next, k, keep);
      if k == j {
        assert was[..j] == was;
        return i, probes + (k - next);
      }
      FillsCell(a[..], was, i, k, keep, hole);
      probes := probes + (k - next) + 1;
      a[i], a[k] := a[k], hole;
      next := k + 1;
    }
    assert was[..j] == was;
    n := j;
  }
}
