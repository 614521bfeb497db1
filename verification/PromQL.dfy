/** PromQL expressions and what they read.  A query text is represented by the tree it parses to;
    operators, functions and modifiers are uninterpreted. */
module PromQL {
  // ---- matchers -------------------------------------------------------------------------------

  datatype MatchType = MatchEqual | MatchNotEqual | MatchRegexp | MatchNotRegexp
  datatype Matcher = Matcher(name: string, kind: MatchType, value: string)
  type Series = map<string, string>

  const METACHARACTERS := "\\.+*?()|[]{}^$\n"

  /** What the regular-expression library does with patterns beyond plain alternations:
      whether the pattern compiles, whether it matches a whole string, whether it matches inside one. */
  datatype RegexEngine = RegexEngine(
    compiles: string -> bool,
    full: (string, string) -> bool,
    find: (string, string) -> bool)

  /** An absent label reads as the empty string. */
  function Label(s: Series, name: string): string {
    if name in s then s[name] else ""
  }

  /** No character has a special meaning in a regular expression. */
  predicate Plain(s: string) {
    forall i | 0 <= i < |s| :: s[i] !in METACHARACTERS
  }

  predicate AllPlain(vs: seq<string>) {
    forall i | 0 <= i < |vs| :: Plain(vs[i])
  }

  /** A pattern whose only operator is `|`. */
  predicate IsAlternation(p: string) {
    forall i | 0 <= i < |p| :: p[i] == '|' || p[i] !in METACHARACTERS
  }

  function SplitBar(p: string): (r: seq<string>)
    ensures r != []
  {
    if p == "" then [""]
    else
      var rest := SplitBar(p[1..]);
      if p[0] == '|' then [""] + rest else [[p[0]] + rest[0]] + rest[1..]
  }

  function JoinBar(vs: seq<string>): string {
    if vs == [] then "" else if |vs| == 1 then vs[0] else vs[0] + "|" + JoinBar(vs[1..])
  }

  predicate Contains(s: string, q: string) {
    q <= s || (s != "" && Contains(s[1..], q))
  }

  predicate Compiles(e: RegexEngine, p: string) {
    IsAlternation(p) || e.compiles(p)
  }

  /** Anchored match, as label matchers use it. */
  predicate FullMatch(e: RegexEngine, p: string, s: string) {
    if IsAlternation(p) then s in SplitBar(p) else e.full(p, s)
  }

  /** Unanchored match, as `regexp.MatchString` uses it. */
  predicate Find(e: RegexEngine, p: string, s: string) {
    if IsAlternation(p) then exists q | q in SplitBar(p) :: Contains(s, q) else e.find(p, s)
  }

  /** A pattern that matches the whole of a one-line plain string also matches inside it. */
  ghost predicate Lawful(e: RegexEngine) {
    forall p, s :: Plain(s) && e.full(p, s) ==> e.find(p, s)
  }

  predicate Matches(e: RegexEngine, m: Matcher, v: string) {
    match m.kind
    case MatchEqual => v == m.value
    case MatchNotEqual => v != m.value
    case MatchRegexp => FullMatch(e, m.value, v)
    case MatchNotRegexp => !FullMatch(e, m.value, v)
  }

  predicate Accepts(e: RegexEngine, ms: seq<Matcher>, s: Series) {
    forall i | 0 <= i < |ms| :: Matches(e, ms[i], Label(s, ms[i].name))
  }

  lemma FullMatchFinds(e: RegexEngine, p: string, s: string)
    requires Lawful(e) && Plain(s) && FullMatch(e, p, s)
    ensures Find(e, p, s)
  {
    if IsAlternation(p) {
      assert Contains(s, s);
    }
  }

  lemma {:induction false} SplitPlain(v: string)
    requires Plain(v)
    ensures SplitBar(v) == [v]
  {
    if v != "" {
      SplitPlain(v[1..]);
      assert v == [v[0]] + v[1..];
    }
  }

  lemma {:induction false} SplitPrefixed(v: string, rest: string)
    requires Plain(v)
    ensures SplitBar(v + "|" + rest) == [v] + SplitBar(rest)
  {
    var p := v + "|" + rest;
    if v == "" {
      assert p[1..] == rest;
    } else {
      SplitPrefixed(v[1..], rest);
      assert p[1..] == v[1..] + "|" + rest;
      assert v == [v[0]] + v[1..];
    }
  }

  /** Joining plain names with `|` loses nothing: splitting gives them back. */
  lemma {:induction false} SplitJoin(vs: seq<string>)
    requires vs != [] && AllPlain(vs)
    ensures IsAlternation(JoinBar(vs)) && SplitBar(JoinBar(vs)) == vs
  {
    if |vs| == 1 {
      SplitPlain(vs[0]);
    } else {
      assert AllPlain(vs[1..]);
      SplitJoin(vs[1..]);
      SplitPrefixed(vs[0], JoinBar(vs[1..]));
      assert vs == [vs[0]] + vs[1..];
    }
  }

  // ---- expressions ----------------------------------------------------------------------------

  datatype Op =
    | Subquery(range: string)
    | Unary(token: string)
    | Binary(token: string, matching: string)
    | Call(func: string)
    | Aggregate(operator: string, grouping: string)
    | Paren
    | Literal(text: string)

  datatype Tree =
    | Vector(name: string, matchers: seq<Matcher>, modifiers: string)
    | Matrix(name: string, matchers: seq<Matcher>, modifiers: string, range: string)
    | Node(op: Op, kids: seq<Tree>)

  /** An interpretation: what a selector yields from the series it selected, and what operators do. */
  datatype Semantics<!V> = Semantics(
    vector: (string, set<Series>) -> V,
    matrix: (string, string, set<Series>) -> V,
    apply: (Op, seq<V>) -> V)

  ghost function Select(e: RegexEngine, ms: seq<Matcher>, store: set<Series>): set<Series> {
    set s | s in store && Accepts(e, ms, s)
  }

  ghost function Eval<V>(e: RegexEngine, sem: Semantics<V>, t: Tree, store: set<Series>): V
    decreases t, 0
  {
    match t
    case Vector(_, ms, mods) => sem.vector(mods, Select(e, ms, store))
    case Matrix(_, ms, mods, range) => sem.matrix(mods, range, Select(e, ms, store))
    case Node(op, kids) => sem.apply(op, EvalAll(e, sem, kids, store))
  }

  ghost function EvalAll<V>(e: RegexEngine, sem: Semantics<V>, ts: seq<Tree>, store: set<Series>): seq<V>
    decreases ts, 1
  {
    if ts == [] then [] else [Eval(e, sem, ts[0], store)] + EvalAll(e, sem, ts[1..], store)
  }

  /** Evaluation in which a selector on metric `name` sees only the series that `admits(name, _)`. */
  ghost function EvalGuarded<V>(e: RegexEngine, sem: Semantics<V>, t: Tree, store: set<Series>,
                                admits: (string, Series) -> bool): V
    decreases t, 0
  {
    match t
    case Vector(name, ms, mods) =>
      sem.vector(mods, Select(e, ms, set s | s in store && admits(name, s)))
    case Matrix(name, ms, mods, range) =>
      sem.matrix(mods, range, Select(e, ms, set s | s in store && admits(name, s)))
    case Node(op, kids) => sem.apply(op, EvalAllGuarded(e, sem, kids, store, admits))
  }

  ghost function EvalAllGuarded<V>(e: RegexEngine, sem: Semantics<V>, ts: seq<Tree>, store: set<Series>,
                                   admits: (string, Series) -> bool): seq<V>
    decreases ts, 1
  {
    if ts == [] then []
    else [EvalGuarded(e, sem, ts[0], store, admits)] + EvalAllGuarded(e, sem, ts[1..], store, admits)
  }

  // ---- the selectors of an expression, in walk order -------------------------------------------

  datatype Selector = Selector(name: string, matchers: seq<Matcher>)

  function Selectors(t: Tree): seq<Selector>
    decreases t, 0
  {
    match t
    case Vector(name, ms, _) => [Selector(name, ms)]
    case Matrix(name, ms, _, _) => [Selector(name, ms)]
    case Node(_, kids) => SelectorsOfAll(kids)
  }

  function SelectorsOfAll(ts: seq<Tree>): seq<Selector>
    decreases ts, 1
  {
    if ts == [] then [] else Selectors(ts[0]) + SelectorsOfAll(ts[1..])
  }

  /** Some selector of the query reads the series. */
  ghost predicate Reads(e: RegexEngine, t: Tree, s: Series) {
    exists sel | sel in Selectors(t) :: Accepts(e, sel.matchers, s)
  }
}
