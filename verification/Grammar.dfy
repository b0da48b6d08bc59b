/** Context-free grammars as lemon stores them, derivations and parse trees. */
module Grammars {
  // A symbol index below `nterminal` is a token, an index in `nterminal..nsymbol` a nonterminal. Index 0 is the
  // end-of-input token "$", which no rule can mention.

  /** A right-hand-side symbol: one grammar symbol, or a MULTITERMINAL (a list of tokens,
      any of which may stand at that place). Structural equality is `same_symbol`. */
  datatype Symbol = Sym(code: nat) | Class(toks: seq<nat>)

  datatype Rule = Rule(lhs: nat, rhs: seq<Symbol>)

  /** A rule together with a parse point (the `rp` and `dot` of a `config`). */
  datatype Item = Item(rule: nat, dot: nat)

  datatype Grammar = Grammar(nterminal: nat, nsymbol: nat, start: nat, rules: seq<Rule>)

  predicate IsToken(g: Grammar, c: nat) {
    0 < c < g.nterminal
  }

  /** `sp->type==NONTERMINAL` */
  predicate IsNonterminal(g: Grammar, x: Symbol) {
    x.Sym? && g.nterminal <= x.code
  }

  predicate WfSymbol(g: Grammar, x: Symbol) {
    match x
    case Sym(c) => 0 < c < g.nsymbol
    case Class(ts) => forall t :: t in ts ==> IsToken(g, t)
  }

  predicate WfRule(g: Grammar, r: Rule) {
    && g.nterminal <= r.lhs < g.nsymbol
    && forall x :: x in r.rhs ==> WfSymbol(g, x)
  }

  predicate WfGrammar(g: Grammar) {
    && 0 < g.nterminal <= g.start < g.nsymbol
    && forall r :: r in g.rules ==> WfRule(g, r)
  }

  /** The check at the head of FindStates: the start symbol is on no right-hand side. */
  predicate StartIsFresh(g: Grammar) {
    forall r :: r in g.rules ==> Sym(g.start) !in r.rhs
  }

  /** Symbol code `c` may stand where the rule has `x`. */
  predicate Fits(c: nat, x: Symbol) {
    match x
    case Sym(d) => c == d
    case Class(ts) => c in ts
  }

  predicate Spells(w: seq<nat>, rhs: seq<Symbol>) {
    |w| == |rhs| && forall i :: 0 <= i < |w| ==> Fits(w[i], rhs[i])
  }

  predicate AllTokens(g: Grammar, w: seq<nat>) {
    forall i :: 0 <= i < |w| ==> IsToken(g, w[i])
  }

  // ----- derivations

  /** `v` is `u` with the nonterminal at position `i` replaced by a right-hand side of rule `r`. */
  ghost predicate Rewrites(g: Grammar, u: seq<nat>, v: seq<nat>, i: nat, r: nat) {
    && i < |u| && r < |g.rules| && u[i] == g.rules[r].lhs
    && var k := |g.rules[r].rhs|;
    && |v| == |u| - 1 + k
    && v[..i] == u[..i]
    && v[i + k..] == u[i + 1..]
    && Spells(v[i..i + k], g.rules[r].rhs)
  }

  ghost predicate DerivesIn(g: Grammar, u: seq<nat>, w: seq<nat>, n: nat)
    decreases n
  {
    if n == 0 then u == w
    else exists v, i: nat, r: nat :: Rewrites(g, u, v, i, r) && DerivesIn(g, v, w, n - 1)
  }

  /** The language of the grammar: token strings derivable from the start symbol. */
  ghost predicate InLanguage(g: Grammar, w: seq<nat>) {
    AllTokens(g, w) && exists n: nat :: DerivesIn(g, [g.start], w, n)
  }

  /** A rewriting step with only tokens to the right of the nonterminal. */
  ghost predicate RightmostStep(g: Grammar, u: seq<nat>, v: seq<nat>, i: nat, r: nat) {
    Rewrites(g, u, v, i, r) && AllTokens(g, u[i + 1..])
  }

  /** `u` derives `w` by applying the rules `rs` in this order, always to the rightmost nonterminal. */
  ghost predicate RightmostBy(g: Grammar, u: seq<nat>, rs: seq<nat>, w: seq<nat>)
    decreases |rs|
  {
    if rs == [] then u == w
    else exists v, i: nat :: RightmostStep(g, u, v, i, rs[0]) && RightmostBy(g, v, rs[1..], w)
  }

  lemma {:induction false} RightmostDerives(g: Grammar, u: seq<nat>, rs: seq<nat>, w: seq<nat>)
    requires RightmostBy(g, u, rs, w)
    ensures DerivesIn(g, u, w, |rs|)
    decreases |rs|
  {
    if rs != [] {
      var v, i: nat :| RightmostStep(g, u, v, i, rs[0]) && RightmostBy(g, v, rs[1..], w);
      RightmostDerives(g, v, rs[1..], w);
    }
  }

  lemma RightmostStepAppend(g: Grammar, u: seq<nat>, v: seq<nat>, i: nat, r: nat, t: nat)
    requires RightmostStep(g, u, v, i, r) && IsToken(g, t)
    ensures RightmostStep(g, u + [t], v + [t], i, r)
  {
    var k := |g.rules[r].rhs|;
    assert (v + [t])[..i] == v[..i];
    assert (u + [t])[..i] == u[..i];
    assert (v + [t])[i + k..] == v[i + k..] + [t];
    assert (u + [t])[i + 1..] == u[i + 1..] + [t];
    assert (v + [t])[i..i + k] == v[i..i + k];
  }

  /** A token shifted to the right of a sentential form takes no part in its rightmost derivation. */
  lemma {:induction false} RightmostAppend(g: Grammar, u: seq<nat>, rs: seq<nat>, w: seq<nat>, t: nat)
    requires RightmostBy(g, u, rs, w) && IsToken(g, t)
    ensures RightmostBy(g, u + [t], rs, w + [t])
    decreases |rs|
  {
    hide RightmostStep, IsToken;
    if rs != [] {
      var v, i: nat :| RightmostStep(g, u, v, i, rs[0]) && RightmostBy(g, v, rs[1..], w);
      RightmostAppend(g, v, rs[1..], w, t);
      RightmostStepAppend(g, u, v, i, rs[0], t);
    }
  }

  // ----- parse trees

  datatype Tree = Leaf(tok: nat) | Node(rule: nat, kids: seq<Tree>)

  function Root(g: Grammar, t: Tree): nat {
    match t
    case Leaf(c) => c
    case Node(r, _) => if r < |g.rules| then g.rules[r].lhs else 0
  }

  function Roots(g: Grammar, ts: seq<Tree>): (s: seq<nat>)
    ensures |s| == |ts| && forall i :: 0 <= i < |s| ==> s[i] == Root(g, ts[i])
  {
    seq(|ts|, i requires 0 <= i < |ts| => Root(g, ts[i]))
  }

  ghost predicate ValidTree(g: Grammar, t: Tree)
    decreases t, 0
  {
    match t
    case Leaf(c) => IsToken(g, c)
    case Node(r, kids) => r < |g.rules| && Spells(Roots(g, kids), g.rules[r].rhs) && ValidForest(g, kids)
  }

  ghost predicate ValidForest(g: Grammar, ts: seq<Tree>)
    decreases ts, 1
  {
    ts == [] || (ValidTree(g, ts[0]) && ValidForest(g, ts[1..]))
  }

  ghost function Yield(t: Tree): seq<nat>
    decreases t, 0
  {
    match t
    case Leaf(c) => [c]
    case Node(_, kids) => Yields(kids)
  }

  ghost function Yields(ts: seq<Tree>): seq<nat>
    decreases ts, 1
  {
    if ts == [] then [] else Yield(ts[0]) + Yields(ts[1..])
  }

  /** The number of nodes and leaves: each takes the parser one step. */
  ghost function TreeSize(t: Tree): nat
    decreases t, 0
  {
    match t
    case Leaf(_) => 1
    case Node(_, kids) => ForestSize(kids) + 1
  }

  ghost function ForestSize(ts: seq<Tree>): nat
    decreases ts, 1
  {
    if ts == [] then 0 else TreeSize(ts[0]) + ForestSize(ts[1..])
  }

  lemma {:induction false} ForestConcat(g: Grammar, a: seq<Tree>, b: seq<Tree>)
    ensures ValidForest(g, a + b) <==> ValidForest(g, a) && ValidForest(g, b)
    ensures Yields(a + b) == Yields(a) + Yields(b) && ForestSize(a + b) == ForestSize(a) + ForestSize(b)
    decreases |a|
  {
    if a == [] {
      assert a + b == b;
    } else {
      assert (a + b)[1..] == a[1..] + b;
      ForestConcat(g, a[1..], b);
    }
  }

  lemma {:induction false} YieldTokens(g: Grammar, ts: seq<Tree>)
    requires ValidForest(g, ts)
    ensures AllTokens(g, Yields(ts))
    decreases ts
  {
    if ts != [] {
      YieldTokens(g, ts[1..]);
      match ts[0]
      case Leaf(_) =>
      case Node(_, kids) => YieldTokens(g, kids);
    }
  }

  lemma {:induction false} TokenForest(g: Grammar, w: seq<nat>) returns (ts: seq<Tree>)
    requires AllTokens(g, w)
    ensures ValidForest(g, ts) && Roots(g, ts) == w && Yields(ts) == w
    decreases |w|
  {
    if w == [] {
      ts := [];
    } else {
      var rest := TokenForest(g, w[1..]);
      ts := [Leaf(w[0])] + rest;
      assert ts[1..] == rest;
      assert Roots(g, ts)[1..] == Roots(g, rest);
    }
  }

  lemma RootsConcat(g: Grammar, a: seq<Tree>, b: seq<Tree>)
    ensures Roots(g, a + b) == Roots(g, a) + Roots(g, b)
  {
  }

  /** The middle of a valid forest, with its roots spelling a right-hand side, is one valid node. */
  lemma FoldForest(g: Grammar, a: seq<Tree>, m: seq<Tree>, b: seq<Tree>, r: nat)
    requires ValidForest(g, a + (m + b)) && r < |g.rules| && Spells(Roots(g, m), g.rules[r].rhs)
    ensures ValidForest(g, a + ([Node(r, m)] + b))
    ensures Yields(a + ([Node(r, m)] + b)) == Yields(a + (m + b))
  {
    ForestConcat(g, a, m + b);
    ForestConcat(g, m, b);
    assert ([Node(r, m)] + b)[1..] == b;
    ForestConcat(g, a, [Node(r, m)] + b);
  }

  /** Undoing one rewriting step on a forest: the trees of the right-hand side get a common parent. */
  lemma UndoRewrite(g: Grammar, u: seq<nat>, v: seq<nat>, i: nat, r: nat, ts: seq<Tree>) returns (us: seq<Tree>)
    requires Rewrites(g, u, v, i, r) && ValidForest(g, ts) && Roots(g, ts) == v
    ensures ValidForest(g, us) && Roots(g, us) == u && Yields(us) == Yields(ts)
  {
    hide ValidForest, Yields;
    var k := |g.rules[r].rhs|;
    var a, m, b := ts[..i], ts[i..i + k], ts[i + k..];
    assert ts == a + (m + b);
    assert Roots(g, a) == v[..i] && Roots(g, m) == v[i..i + k] && Roots(g, b) == v[i + k..];
    FoldForest(g, a, m, b, r);
    us := a + ([Node(r, m)] + b);
    RootsConcat(g, [Node(r, m)], b);
    RootsConcat(g, a, [Node(r, m)] + b);
    assert u == u[..i] + ([u[i]] + u[i + 1..]);
    assert Roots(g, [Node(r, m)]) == [u[i]];
  }

  /** Every derivation of a token string has a forest of parse trees. */
  lemma {:induction false} DerivationForest(g: Grammar, u: seq<nat>, w: seq<nat>, n: nat) returns (ts: seq<Tree>)
    requires DerivesIn(g, u, w, n) && AllTokens(g, w)
    ensures ValidForest(g, ts) && Roots(g, ts) == u && Yields(ts) == w
    decreases n
  {
    if n == 0 {
      ts := TokenForest(g, w);
    } else {
      var v, i: nat, r: nat :| Rewrites(g, u, v, i, r) && DerivesIn(g, v, w, n - 1);
      var vs := DerivationForest(g, v, w, n - 1);
      ts := UndoRewrite(g, u, v, i, r, vs);
    }
  }
}
