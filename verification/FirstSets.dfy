/** FindFirstSets (tools/lemon/lemon.c). */
module FirstSets {
  // The nonterminals that generate the empty string, and the tokens each nonterminal can begin with.

  import opened Grammars

  // ----- the two relations, defined inductively (n bounds the height of the argument)

  ghost predicate NullableIn(g: Grammar, c: nat, n: nat)
    decreases n, 0
  {
    n > 0 && exists r: nat :: r < |g.rules| && g.rules[r].lhs == c && RuleVanishes(g, g.rules[r].rhs, n - 1)
  }

  ghost predicate RuleVanishes(g: Grammar, rhs: seq<Symbol>, n: nat)
    decreases n, 1
  {
    forall i :: 0 <= i < |rhs| ==> rhs[i].Sym? && NullableIn(g, rhs[i].code, n)
  }

  ghost predicate Nullable(g: Grammar, c: nat) {
    exists n: nat :: NullableIn(g, c, n)
  }

  ghost predicate NullableSeq(g: Grammar, xs: seq<Symbol>) {
    forall i :: 0 <= i < |xs| ==> xs[i].Sym? && Nullable(g, xs[i].code)
  }

  ghost predicate FirstIn(g: Grammar, c: nat, t: nat, n: nat)
    decreases n, 1
  {
    exists r: nat, i: nat :: RuleBegins(g, r, i, c, t, n)
  }

  ghost predicate RuleBegins(g: Grammar, r: nat, i: nat, c: nat, t: nat, n: nat)
    decreases n, 0
  {
    n > 0 && r < |g.rules| && g.rules[r].lhs == c && BeginsAt(g, g.rules[r].rhs, i, t, n - 1)
  }

  /** The symbols before position `i` can all vanish, and the one there begins with `t`. */
  ghost predicate BeginsAt(g: Grammar, xs: seq<Symbol>, i: nat, t: nat, n: nat)
    decreases n, 2
  {
    && i < |xs| && NullableSeq(g, xs[..i])
    && if IsNonterminal(g, xs[i]) then FirstIn(g, xs[i].code, t, n) else Fits(t, xs[i])
  }

  ghost predicate First(g: Grammar, c: nat, t: nat) {
    exists n: nat :: FirstIn(g, c, t, n)
  }

  ghost predicate FirstSeq(g: Grammar, xs: seq<Symbol>, t: nat) {
    exists i: nat, n: nat :: BeginsAt(g, xs, i, t, n)
  }

  // ----- closure properties

  lemma {:induction false} NullableMono(g: Grammar, c: nat, m: nat, n: nat)
    requires NullableIn(g, c, m) && m <= n
    ensures NullableIn(g, c, n)
    decreases m
  {
    var r: nat :| r < |g.rules| && g.rules[r].lhs == c && RuleVanishes(g, g.rules[r].rhs, m - 1);
    forall i | 0 <= i < |g.rules[r].rhs| ensures NullableIn(g, g.rules[r].rhs[i].code, n - 1) {
      NullableMono(g, g.rules[r].rhs[i].code, m - 1, n - 1);
    }
    assert RuleVanishes(g, g.rules[r].rhs, n - 1);
  }

  /** One bound serves all symbols of a vanishing string. */
  lemma {:induction false} NullableBound(g: Grammar, xs: seq<Symbol>) returns (n: nat)
    requires NullableSeq(g, xs)
    ensures RuleVanishes(g, xs, n)
    decreases |xs|
  {
    if xs == [] {
      n := 0;
    } else {
      var front, last := xs[..|xs| - 1], xs[|xs| - 1];
      var m := NullableBound(g, front);
      assert Nullable(g, last.code);
      var k: nat :| NullableIn(g, last.code, k);
      n := m + k;
      forall i | 0 <= i < |xs| ensures xs[i].Sym? && NullableIn(g, xs[i].code, n) {
        if i < |xs| - 1 {
          assert front[i].Sym? && NullableIn(g, front[i].code, m);
          NullableMono(g, xs[i].code, m, n);
        } else {
          NullableMono(g, xs[i].code, k, n);
        }
      }
    }
  }

  lemma NullableRule(g: Grammar, r: nat)
    requires r < |g.rules| && NullableSeq(g, g.rules[r].rhs)
    ensures Nullable(g, g.rules[r].lhs)
  {
    var n := NullableBound(g, g.rules[r].rhs);
    assert RuleVanishes(g, g.rules[r].rhs, n + 1 - 1);
    assert NullableIn(g, g.rules[r].lhs, n + 1);
  }

  lemma FirstRule(g: Grammar, r: nat, i: nat, t: nat)
    requires r < |g.rules| && i < |g.rules[r].rhs| && NullableSeq(g, g.rules[r].rhs[..i])
    requires var x := g.rules[r].rhs[i]; if IsNonterminal(g, x) then First(g, x.code, t) else Fits(t, x)
    ensures First(g, g.rules[r].lhs, t)
  {
    var x := g.rules[r].rhs[i];
    var n: nat := 0;
    if IsNonterminal(g, x) {
      n :| FirstIn(g, x.code, t, n);
    }
    assert RuleBegins(g, r, i, g.rules[r].lhs, t, n + 1);
    assert FirstIn(g, g.rules[r].lhs, t, n + 1);
  }

  // ----- what a parse tree shows about its root

  predicate WfSymbols(g: Grammar, xs: seq<Symbol>) {
    forall i :: 0 <= i < |xs| ==> WfSymbol(g, xs[i])
  }

  /** A string whose trees have an empty frontier vanishes. */
  lemma {:induction false} ForestVanishes(g: Grammar, xs: seq<Symbol>, ts: seq<Tree>)
    requires WfGrammar(g) && WfSymbols(g, xs)
    requires ValidForest(g, ts) && Spells(Roots(g, ts), xs) && Yields(ts) == []
    ensures NullableSeq(g, xs)
    decreases ts
  {
    if ts != [] {
      match ts[0]
      case Leaf(c) =>
        assert false;
      case Node(r, kids) =>
        assert Yield(ts[0]) == [] && WfRule(g, g.rules[r]);
        ForestVanishes(g, g.rules[r].rhs, kids);
        NullableRule(g, r);
        ForestVanishes(g, xs[1..], ts[1..]);
        assert Fits(Roots(g, ts)[0], xs[0]) && WfSymbol(g, xs[0]);
        forall i | 0 <= i < |xs| ensures xs[i].Sym? && Nullable(g, xs[i].code) {
          if i > 0 {
            assert xs[i] == xs[1..][i - 1];
          }
        }
    }
  }

  /** A string whose trees have a frontier beginning with `t` has `t` among its first tokens. */
  lemma {:induction false} ForestBegins(g: Grammar, xs: seq<Symbol>, ts: seq<Tree>)
    requires WfGrammar(g) && WfSymbols(g, xs)
    requires ValidForest(g, ts) && Spells(Roots(g, ts), xs) && Yields(ts) != []
    ensures FirstSeq(g, xs, Yields(ts)[0])
    decreases ts
  {
    var t := Yields(ts)[0];
    assert Fits(Roots(g, ts)[0], xs[0]) && WfSymbol(g, xs[0]);
    match ts[0]
    case Leaf(c) =>
      assert BeginsAt(g, xs, 0, t, 0);
    case Node(r, kids) =>
      assert WfRule(g, g.rules[r]);
      if Yields(kids) != [] {
        ForestBegins(g, g.rules[r].rhs, kids);
        var i: nat, n: nat :| BeginsAt(g, g.rules[r].rhs, i, t, n);
        assert RuleBegins(g, r, i, xs[0].code, t, n + 1);
        assert BeginsAt(g, xs, 0, t, n + 1);
      } else {
        ForestVanishes(g, g.rules[r].rhs, kids);
        NullableRule(g, r);
        ForestBegins(g, xs[1..], ts[1..]);
        var i: nat, n: nat :| BeginsAt(g, xs[1..], i, t, n);
        VanishThenBegin(g, xs, i, t, n);
      }
  }

  lemma VanishThenBegin(g: Grammar, xs: seq<Symbol>, i: nat, t: nat, n: nat)
    requires xs != [] && xs[0].Sym? && Nullable(g, xs[0].code) && BeginsAt(g, xs[1..], i, t, n)
    ensures BeginsAt(g, xs, i + 1, t, n)
  {
    var front := xs[..i + 1];
    forall j | 0 <= j < |front| ensures front[j].Sym? && Nullable(g, front[j].code) {
      if j > 0 {
        assert front[j] == xs[1..][..i][j - 1];
      }
    }
  }

  lemma {:induction false} VanishingForest(g: Grammar, xs: seq<Symbol>, n: nat) returns (ts: seq<Tree>)
    requires RuleVanishes(g, xs, n)
    ensures ValidForest(g, ts) && Spells(Roots(g, ts), xs) && Yields(ts) == []
    decreases n, |xs|
  {
    if xs == [] {
      ts := [];
    } else {
      var r: nat :| r < |g.rules| && g.rules[r].lhs == xs[0].code && RuleVanishes(g, g.rules[r].rhs, n - 1);
      var kids := VanishingForest(g, g.rules[r].rhs, n - 1);
      assert RuleVanishes(g, xs[1..], n);
      var rest := VanishingForest(g, xs[1..], n);
      ts := [Node(r, kids)] + rest;
      assert ts[1..] == rest;
    }
  }

  /** A nonterminal is nullable exactly if it generates the empty string. */
  lemma NullableGeneratesEmpty(g: Grammar, c: nat)
    requires WfGrammar(g) && 0 < c < g.nsymbol
    ensures Nullable(g, c) <==> exists t :: ValidTree(g, t) && Root(g, t) == c && Yield(t) == []
  {
    if Nullable(g, c) {
      var n: nat :| NullableIn(g, c, n);
      assert RuleVanishes(g, [Sym(c)], n);
      var ts := VanishingForest(g, [Sym(c)], n);
      assert Fits(Roots(g, ts)[0], Sym(c));
      assert Yields(ts) == Yield(ts[0]) + Yields(ts[1..]);
      assert ValidTree(g, ts[0]);
    }
    if t :| ValidTree(g, t) && Root(g, t) == c && Yield(t) == [] {
      assert [t][1..] == [];
      ForestVanishes(g, [Sym(c)], [t]);
      assert NullableSeq(g, [Sym(c)]) && [Sym(c)][0].code == c;
    }
  }

  // ----- the computation of `lambda`

  predicate Vanishes(lambda: seq<bool>, x: Symbol) {
    x.Sym? && x.code < |lambda| && lambda[x.code]
  }

  predicate AllVanish(lambda: seq<bool>, xs: seq<Symbol>) {
    forall i :: 0 <= i < |xs| ==> Vanishes(lambda, xs[i])
  }

  ghost predicate LambdaSound(g: Grammar, lambda: seq<bool>) {
    |lambda| == g.nsymbol && forall c: nat :: c < |lambda| && lambda[c] ==> Nullable(g, c)
  }

  ghost predicate LambdaClosed(g: Grammar, lambda: seq<bool>, k: nat) {
    forall r: nat :: r < k && r < |g.rules| && AllVanish(lambda, g.rules[r].rhs) ==> Vanishes(lambda, Sym(g.rules[r].lhs))
  }

  ghost function Unset(lambda: seq<bool>): set<nat> {
    set c: nat | c < |lambda| && !lambda[c]
  }

  lemma {:induction false} LambdaComplete(g: Grammar, lambda: seq<bool>, c: nat, n: nat)
    requires LambdaClosed(g, lambda, |g.rules|) && NullableIn(g, c, n)
    ensures Vanishes(lambda, Sym(c))
    decreases n
  {
    var r: nat :| r < |g.rules| && g.rules[r].lhs == c && RuleVanishes(g, g.rules[r].rhs, n - 1);
    forall i | 0 <= i < |g.rules[r].rhs| ensures Vanishes(lambda, g.rules[r].rhs[i]) {
      LambdaComplete(g, lambda, g.rules[r].rhs[i].code, n - 1);
    }
  }

  /** `lambda` ends up true for exactly the symbols that can vanish. */
  method FindLambdas(g: Grammar) returns (lambda: seq<bool>)
    requires WfGrammar(g)
    ensures |lambda| == g.nsymbol
    ensures forall c: nat :: c < g.nsymbol ==> (lambda[c] <==> Nullable(g, c))
  {
    lambda := seq(g.nsymbol, _ => false);
    var progress := true;
    while progress
      invariant LambdaSound(g, lambda)
      invariant !progress ==> LambdaClosed(g, lambda, |g.rules|)
      decreases Unset(lambda), progress
    {
      progress := false;
      ghost var before := lambda;
      for k := 0 to |g.rules|
        invariant LambdaSound(g, lambda)
        invariant if progress then Unset(lambda) < Unset(before) else lambda == before && LambdaClosed(g, lambda, k)
      {
        var rule := g.rules[k];
        assert WfRule(g, rule);
        if lambda[rule.lhs] {
          continue;
        }
        var i := 0;
        while i < |rule.rhs| && Vanishes(lambda, rule.rhs[i])
          invariant 0 <= i <= |rule.rhs|
          invariant forall j :: 0 <= j < i ==> Vanishes(lambda, rule.rhs[j])
        {
          i := i + 1;
        }
        if i == |rule.rhs| {
          assert NullableSeq(g, rule.rhs);
          NullableRule(g, k);
          assert rule.lhs in Unset(lambda);
          lambda := lambda[rule.lhs := true];
          progress := true;
        }
      }
    }
    forall c: nat | c < g.nsymbol && Nullable(g, c) ensures lambda[c] {
      var n: nat :| NullableIn(g, c, n);
      LambdaComplete(g, lambda, c, n);
    }
  }

  // ----- the computation of `firstset`

  /** The tokens a right-hand-side symbol offers at the current stage. */
  function Offers(g: Grammar, first: seq<set<nat>>, x: Symbol): set<nat> {
    match x
    case Class(ts) => set t | t in ts
    case Sym(c) => if c < g.nterminal then {c} else if c < |first| then first[c] else {}
  }

  ghost predicate FirstSound(g: Grammar, first: seq<set<nat>>) {
    && |first| == g.nsymbol
    && forall c: nat, t :: c < |first| && t in first[c] ==> t < g.nterminal && First(g, c, t)
  }

  ghost predicate RuleClosed(g: Grammar, lambda: seq<bool>, first: seq<set<nat>>, r: nat, upto: nat) {
    r < |g.rules| && g.rules[r].lhs < |first| ==>
      forall j: nat :: j < upto && j < |g.rules[r].rhs| && AllVanish(lambda, g.rules[r].rhs[..j]) ==>
        Offers(g, first, g.rules[r].rhs[j]) <= first[g.rules[r].lhs]
  }

  ghost predicate FirstClosed(g: Grammar, lambda: seq<bool>, first: seq<set<nat>>, k: nat) {
    forall r: nat :: r < k && r < |g.rules| ==> RuleClosed(g, lambda, first, r, |g.rules[r].rhs|)
  }

  ghost function Missing(g: Grammar, first: seq<set<nat>>): set<(nat, nat)> {
    set c: nat, t: nat | c < |first| && t < g.nterminal && t !in first[c] :: (c, t)
  }

  lemma MissingShrinks(g: Grammar, first: seq<set<nat>>, c: nat, more: set<nat>)
    requires c < |first| && (forall t :: t in more ==> t < g.nterminal) && !(more <= first[c])
    ensures Missing(g, first[c := first[c] + more]) < Missing(g, first)
  {
    var t :| t in more && t !in first[c];
    assert (c, t) in Missing(g, first);
    assert (c, t) !in Missing(g, first[c := first[c] + more]);
  }

  lemma {:induction false} FirstComplete(g: Grammar, lambda: seq<bool>, first: seq<set<nat>>, c: nat, t: nat, n: nat)
    requires WfGrammar(g) && |lambda| == g.nsymbol && |first| == g.nsymbol
    requires forall c: nat :: c < g.nsymbol ==> (lambda[c] <==> Nullable(g, c))
    requires FirstClosed(g, lambda, first, |g.rules|) && FirstIn(g, c, t, n)
    ensures c < |first| && t in first[c]
    decreases n
  {
    var r: nat, i: nat :| RuleBegins(g, r, i, c, t, n);
    var rhs := g.rules[r].rhs;
    assert BeginsAt(g, rhs, i, t, n - 1);
    assert WfRule(g, g.rules[r]) && WfSymbol(g, rhs[i]);
    if IsNonterminal(g, rhs[i]) {
      FirstComplete(g, lambda, first, rhs[i].code, t, n - 1);
    }
    forall j | 0 <= j < i ensures Vanishes(lambda, rhs[..i][j]) {
      assert WfSymbol(g, rhs[j]) && rhs[..i][j] == rhs[j];
    }
    assert RuleClosed(g, lambda, first, r, |rhs|);
    assert t in Offers(g, first, rhs[i]);
  }

  /** One rule's turn in the loop: first[lhs] takes in what the right-hand side offers, up to and
      including its first symbol that cannot vanish; the left-hand side itself is skipped. */
  method RuleTurn(g: Grammar, lambda: seq<bool>, first: seq<set<nat>>, k: nat) returns (first': seq<set<nat>>, progress: bool)
    requires WfGrammar(g) && k < |g.rules| && |lambda| == g.nsymbol && FirstSound(g, first)
    requires forall c: nat :: c < g.nsymbol ==> (lambda[c] <==> Nullable(g, c))
    ensures FirstSound(g, first')
    ensures if progress then Missing(g, first') < Missing(g, first)
            else first' == first && RuleClosed(g, lambda, first, k, |g.rules[k].rhs|)
  {
    var s1, rhs := g.rules[k].lhs, g.rules[k].rhs;
    assert WfRule(g, g.rules[k]);
    first', progress := first, false;
    var i := 0;
    while i < |rhs|
      invariant 0 <= i <= |rhs| && AllVanish(lambda, rhs[..i]) && FirstSound(g, first')
      invariant if progress then Missing(g, first') < Missing(g, first)
                else first' == first && RuleClosed(g, lambda, first, k, i)
    {
      var s2 := rhs[i];
      assert WfSymbol(g, s2);
      if s2 != Sym(s1) {
        var more := Offers(g, first', s2);
        OffersAreFirst(g, lambda, first', k, i);
        if !(more <= first'[s1]) {
          MissingShrinks(g, first', s1, more);
          first' := first'[s1 := first'[s1] + more];
          progress := true;
        }
      }
      if !Vanishes(lambda, s2) {
        assert !progress ==> RuleClosed(g, lambda, first, k, |rhs|) by {
          assert forall j: nat :: i < j <= |rhs| ==> rhs[..j][i] == s2;
        }
        return;
      }
      i := i + 1;
    }
  }

  lemma OffersAreFirst(g: Grammar, lambda: seq<bool>, first: seq<set<nat>>, k: nat, i: nat)
    requires WfGrammar(g) && k < |g.rules| && |lambda| == g.nsymbol && FirstSound(g, first)
    requires forall c: nat :: c < g.nsymbol ==> (lambda[c] <==> Nullable(g, c))
    requires i < |g.rules[k].rhs| && AllVanish(lambda, g.rules[k].rhs[..i])
    ensures forall t :: t in Offers(g, first, g.rules[k].rhs[i]) ==> t < g.nterminal && First(g, g.rules[k].lhs, t)
  {
    var x := g.rules[k].rhs[i];
    assert WfRule(g, g.rules[k]) && WfSymbol(g, x);
    forall t | t in Offers(g, first, x) ensures t < g.nterminal && First(g, g.rules[k].lhs, t) {
      FirstRule(g, k, i, t);
    }
  }

  /** FindFirstSets: both results are sound and complete for the inductive relations. */
  method FindFirstSets(g: Grammar) returns (lambda: seq<bool>, first: seq<set<nat>>)
    requires WfGrammar(g)
    ensures |lambda| == g.nsymbol && |first| == g.nsymbol
    ensures forall c: nat :: c < g.nsymbol ==> (lambda[c] <==> Nullable(g, c))
    ensures forall c: nat, t :: c < g.nsymbol ==> (t in first[c] <==> First(g, c, t))
    ensures forall c: nat, t :: c < g.nsymbol && t in first[c] ==> t < g.nterminal
  {
    lambda := FindLambdas(g);
    first := seq(g.nsymbol, _ => {});
    var progress := true;
    while progress
      invariant FirstSound(g, first)
      invariant !progress ==> FirstClosed(g, lambda, first, |g.rules|)
      decreases Missing(g, first), progress
    {
      progress := false;
      ghost var before := first;
      for k := 0 to |g.rules|
        invariant FirstSound(g, first)
        invariant if progress then Missing(g, first) < Missing(g, before)
                  else first == before && FirstClosed(g, lambda, first, k)
      {
        var changed;
        first, changed := RuleTurn(g, lambda, first, k);
        progress := progress || changed;
      }
    }
    forall c: nat, t: nat | c < g.nsymbol && First(g, c, t) ensures t in first[c] {
      var n: nat :| FirstIn(g, c, t, n);
      FirstComplete(g, lambda, first, c, t, n);
    }
  }
}
