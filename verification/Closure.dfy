/** Configlist_closure (tools/lemon/lemon.c): the configurations of one state. */
module ConfigClosure {
  // With the tokens known to follow each of them, and the links along which follow-sets are passed on.

  import opened Grammars
  import opened FirstSets
  import opened LrTheory
  import opened Wrappers

  /** What stands behind the symbol after the dot. */
  function Tail(g: Grammar, it: Item): seq<Symbol>
    requires Shiftable(g, it)
  {
    g.rules[it.rule].rhs[it.dot + 1..]
  }

  /** Configuration `src` has the left-hand side of the undotted `it` after its dot. */
  predicate Calls(g: Grammar, src: Item, it: Item) {
    Shiftable(g, src) && it.rule < |g.rules| && it.dot == 0 && After(g, src) == Sym(g.rules[it.rule].lhs)
  }

  /** `src` lets token `t` follow `it`. */
  ghost predicate Brings(g: Grammar, src: Item, it: Item, t: nat) {
    Calls(g, src, it) && FirstSeq(g, Tail(g, src), t)
  }

  /** Whatever follows `src` follows `it`. */
  ghost predicate Passes(g: Grammar, src: Item, it: Item) {
    Calls(g, src, it) && NullableSeq(g, Tail(g, src))
  }

  ghost predicate FirstsKnown(g: Grammar, lambda: seq<bool>, first: seq<set<nat>>) {
    && |lambda| == g.nsymbol && |first| == g.nsymbol
    && (forall c: nat :: c < g.nsymbol ==> (lambda[c] <==> Nullable(g, c)))
    && (forall c: nat, t :: c < g.nsymbol ==> (t in first[c] <==> First(g, c, t)))
  }

  // ----- the tokens with which a string can begin

  ghost predicate StartsAt(g: Grammar, xs: seq<Symbol>, i: nat, t: nat) {
    exists n: nat :: BeginsAt(g, xs, i, t, n)
  }

  ghost predicate StartsBefore(g: Grammar, xs: seq<Symbol>, i: nat, t: nat) {
    exists j: nat :: j < i && StartsAt(g, xs, j, t)
  }

  lemma OffersStart(g: Grammar, lambda: seq<bool>, first: seq<set<nat>>, xs: seq<Symbol>, i: nat, t: nat)
    requires WfGrammar(g) && WfSymbols(g, xs) && FirstsKnown(g, lambda, first) && i < |xs| && NullableSeq(g, xs[..i])
    ensures t in Offers(g, first, xs[i]) <==> StartsAt(g, xs, i, t)
  {
    assert WfSymbol(g, xs[i]);
    if t in Offers(g, first, xs[i]) {
      var n: nat := 0;
      if IsNonterminal(g, xs[i]) {
        assert First(g, xs[i].code, t);
        n :| FirstIn(g, xs[i].code, t, n);
      }
      assert BeginsAt(g, xs, i, t, n);
    }
    if StartsAt(g, xs, i, t) {
      var n: nat :| BeginsAt(g, xs, i, t, n);
      if IsNonterminal(g, xs[i]) {
        assert FirstIn(g, xs[i].code, t, n);
        assert First(g, xs[i].code, t);
      }
    }
  }

  /** The inner loop of the closure: walk along `xs` until a symbol that cannot vanish. */
  method FirstOfTail(g: Grammar, lambda: seq<bool>, first: seq<set<nat>>, xs: seq<Symbol>)
    returns (ts: set<nat>, vanishes: bool)
    requires WfGrammar(g) && WfSymbols(g, xs) && FirstsKnown(g, lambda, first)
    ensures vanishes <==> NullableSeq(g, xs)
    ensures forall t: nat :: t in ts <==> FirstSeq(g, xs, t)
  {
    ts := {};
    var i := 0;
    while i < |xs|
      invariant 0 <= i <= |xs| && NullableSeq(g, xs[..i])
      invariant forall t: nat :: t in ts <==> StartsBefore(g, xs, i, t)
    {
      var more := Offers(g, first, xs[i]);
      forall t: nat ensures t in ts + more <==> StartsBefore(g, xs, i + 1, t) {
        OffersStart(g, lambda, first, xs, i, t);
        assert t in ts <==> StartsBefore(g, xs, i, t);
      }
      ts := ts + more;
      assert WfSymbol(g, xs[i]);
      if !Vanishes(lambda, xs[i]) {
        BeginsNoLater(g, xs, i);
        vanishes := false;
        return;
      }
      i := i + 1;
    }
    assert xs[..i] == xs;
    BeginsWithin(g, xs);
    vanishes := true;
  }

  lemma BeginsNoLater(g: Grammar, xs: seq<Symbol>, i: nat)
    requires i < |xs| && !(xs[i].Sym? && Nullable(g, xs[i].code))
    ensures forall t: nat :: FirstSeq(g, xs, t) <==> StartsBefore(g, xs, i + 1, t)
    ensures !NullableSeq(g, xs)
  {
    forall j: nat | i < j <= |xs| ensures !NullableSeq(g, xs[..j]) {
      assert xs[..j][i] == xs[i];
    }
    BeginsWithin(g, xs);
  }

  lemma BeginsWithin(g: Grammar, xs: seq<Symbol>)
    ensures forall t: nat :: FirstSeq(g, xs, t) <==> StartsBefore(g, xs, |xs|, t)
  {
    forall t: nat ensures FirstSeq(g, xs, t) <==> StartsBefore(g, xs, |xs|, t) {
      if FirstSeq(g, xs, t) {
        var i: nat, n: nat :| BeginsAt(g, xs, i, t, n);
        assert StartsAt(g, xs, i, t);
      }
    }
  }

  // ----- the closure

  /** The configurations built so far: the basis first, then undotted ones that an earlier one calls. */
  ghost predicate Grown(g: Grammar, basis: seq<Item>, configs: seq<Item>) {
    && NoDuplicates(configs) && basis <= configs
    && (forall i :: 0 <= i < |configs| ==> WfItem(g, configs[i]))
    && (forall i :: |basis| <= i < |configs| ==> CalledBefore(g, configs, i))
  }

  ghost predicate CalledBefore(g: Grammar, configs: seq<Item>, i: nat)
    requires i < |configs|
  {
    exists j: nat :: j < i && Calls(g, configs[j], configs[i])
  }

  ghost predicate AllCalled(g: Grammar, configs: seq<Item>, src: Item) {
    forall r: nat :: r < |g.rules| && Calls(g, src, Item(r, 0)) ==> Item(r, 0) in configs
  }

  /** Follow-sets and links account for exactly the first `k` configurations. */
  ghost predicate Accounted(g: Grammar, configs: seq<Item>, fws0: map<Item, set<nat>>, fws: map<Item, set<nat>>,
                            links: set<(Item, Item)>, k: nat)
    requires k <= |configs|
  {
    && (forall it :: it in fws <==> it in configs)
    && (forall it, t: nat :: it in fws ==> (t in fws[it] <==> (it in fws0 && t in fws0[it]) || BroughtBy(g, configs, k, it, t)))
    && (forall a, b :: (a, b) in links <==> PassedBy(g, configs, k, a, b))
  }

  ghost predicate BroughtBy(g: Grammar, configs: seq<Item>, k: nat, it: Item, t: nat)
    requires k <= |configs|
  {
    exists j: nat :: j < k && Brings(g, configs[j], it, t)
  }

  ghost predicate PassedBy(g: Grammar, configs: seq<Item>, k: nat, a: Item, b: Item)
    requires k <= |configs|
  {
    Passes(g, a, b) && exists j: nat :: j < k && configs[j] == a
  }

  /** The follow-sets after `src` has been looked at for the rules below `r`. */
  ghost predicate BroughtUpTo(g: Grammar, src: Item, r: nat, prior: map<Item, set<nat>>, fws: map<Item, set<nat>>) {
    forall it, t: nat :: it in fws ==>
      (t in fws[it] <==> (it in prior && t in prior[it]) || (it.rule < r && Brings(g, src, it, t)))
  }

  ghost predicate PassedUpTo(g: Grammar, src: Item, r: nat, prior: set<(Item, Item)>, links: set<(Item, Item)>) {
    forall a, b :: (a, b) in links <==> (a, b) in prior || (a == src && b.rule < r && Passes(g, a, b))
  }

  lemma GrownAppend(g: Grammar, basis: seq<Item>, configs: seq<Item>, k: nat, it: Item)
    requires Grown(g, basis, configs) && k < |configs| && Calls(g, configs[k], it) && it !in configs
    ensures Grown(g, basis, configs + [it])
  {
    var configs' := configs + [it];
    forall i | |basis| <= i < |configs'| ensures CalledBefore(g, configs', i) {
      if i < |configs| {
        assert CalledBefore(g, configs, i);
        var j: nat :| j < i && Calls(g, configs[j], configs[i]);
        assert Calls(g, configs'[j], configs'[i]);
      } else {
        assert Calls(g, configs'[k], configs'[i]);
      }
    }
  }

  /** The turn of one configuration: add the rules of the nonterminal after its dot. */
  method CloseOne(g: Grammar, lambda: seq<bool>, first: seq<set<nat>>, basis: seq<Item>, configs: seq<Item>,
                  fws: map<Item, set<nat>>, links: set<(Item, Item)>, k: nat)
    returns (configs': seq<Item>, fws': map<Item, set<nat>>, links': set<(Item, Item)>)
    requires WfGrammar(g) && FirstsKnown(g, lambda, first) && Grown(g, basis, configs) && k < |configs|
    requires forall it :: it in fws <==> it in configs
    ensures Grown(g, basis, configs') && configs <= configs' && AllCalled(g, configs', configs[k])
    ensures forall it :: it in fws' <==> it in configs'
    ensures BroughtUpTo(g, configs[k], |g.rules|, fws, fws') && PassedUpTo(g, configs[k], |g.rules|, links, links')
  {
    var src := configs[k];
    configs', fws', links' := configs, fws, links;
    if Shiftable(g, src) {
      assert WfRule(g, g.rules[src.rule]);
      for r := 0 to |g.rules|
        invariant Grown(g, basis, configs') && configs <= configs' && configs'[k] == src
        invariant forall q: nat :: q < r && Calls(g, src, Item(q, 0)) ==> Item(q, 0) in configs'
        invariant forall it :: it in fws' <==> it in configs'
        invariant BroughtUpTo(g, src, r, fws, fws') && PassedUpTo(g, src, r, links, links')
      {
        if After(g, src) == Sym(g.rules[r].lhs) {
          var it := Item(r, 0);
          if it !in configs' {
            GrownAppend(g, basis, configs', k, it);
            configs', fws' := configs' + [it], fws'[it := {}];
          }
          var ts, vanishes := FirstOfTail(g, lambda, first, Tail(g, src));
          fws' := fws'[it := fws'[it] + ts];
          if vanishes {
            links' := links' + {(src, it)};
          }
        }
      }
    }
  }

  ghost function AllItems(g: Grammar): set<Item> {
    set r: nat, d: nat | r < |g.rules| && d <= |g.rules[r].rhs| :: Item(r, d)
  }

  /** `configs` is the closure of `basis`, with the follow-sets and links that go with it. */
  ghost predicate ClosureOf(g: Grammar, basis: seq<Item>, fws0: map<Item, set<nat>>, configs: seq<Item>,
                            fws: map<Item, set<nat>>, links: set<(Item, Item)>) {
    && Grown(g, basis, configs)
    && (forall it :: it in configs ==> AllCalled(g, configs, it))
    && Accounted(g, configs, fws0, fws, links, |configs|)
  }

  lemma AccountMore(g: Grammar, configs: seq<Item>, configs': seq<Item>, fws0: map<Item, set<nat>>,
                    fws: map<Item, set<nat>>, fws': map<Item, set<nat>>,
                    links: set<(Item, Item)>, links': set<(Item, Item)>, k: nat)
    requires k < |configs| && configs <= configs' && Accounted(g, configs, fws0, fws, links, k)
    requires forall it :: it in fws' <==> it in configs'
    requires forall it :: it in fws0 ==> it in fws
    requires BroughtUpTo(g, configs[k], |g.rules|, fws, fws') && PassedUpTo(g, configs[k], |g.rules|, links, links')
    requires forall j: nat, it :: j < k && Calls(g, configs[j], it) ==> it in configs
    ensures Accounted(g, configs', fws0, fws', links', k + 1)
  {
    forall it, t: nat | it in fws'
      ensures t in fws'[it] <==> (it in fws0 && t in fws0[it]) || BroughtBy(g, configs', k + 1, it, t)
    {
      if BroughtBy(g, configs', k + 1, it, t) {
        var j: nat :| j < k + 1 && Brings(g, configs'[j], it, t);
        if j < k {
          assert Calls(g, configs[j], it) && it in fws;
          assert BroughtBy(g, configs, k, it, t);
        }
      }
      if it in fws && BroughtBy(g, configs, k, it, t) {
        var j: nat :| j < k && Brings(g, configs[j], it, t);
        assert Brings(g, configs'[j], it, t);
      }
      if Brings(g, configs[k], it, t) {
        assert Brings(g, configs'[k], it, t);
      }
    }
    forall a, b ensures (a, b) in links' <==> PassedBy(g, configs', k + 1, a, b) {
      assert (a, b) in links <==> PassedBy(g, configs, k, a, b);
      if PassedBy(g, configs', k + 1, a, b) {
        var j: nat :| j < k + 1 && configs'[j] == a;
        assert configs[j] == a;
      }
      if PassedBy(g, configs, k, a, b) {
        var j: nat :| j < k && configs[j] == a;
        assert configs'[j] == a;
      }
      assert configs'[k] == configs[k];
    }
  }

  /** Configlist_closure. */
  method Closure(g: Grammar, lambda: seq<bool>, first: seq<set<nat>>, basis: seq<Item>, fws0: map<Item, set<nat>>)
    returns (configs: seq<Item>, fws: map<Item, set<nat>>, links: set<(Item, Item)>)
    requires WfGrammar(g) && FirstsKnown(g, lambda, first)
    requires NoDuplicates(basis) && forall i :: 0 <= i < |basis| ==> WfItem(g, basis[i])
    requires forall it :: it in fws0 <==> it in basis
    ensures ClosureOf(g, basis, fws0, configs, fws, links)
  {
    configs, fws, links := basis, fws0, {};
    var k := 0;
    while k < |configs|
      invariant k <= |configs| && Grown(g, basis, configs)
      invariant Accounted(g, configs, fws0, fws, links, k)
      invariant forall j :: 0 <= j < k ==> AllCalled(g, configs, configs[j])
      invariant forall it :: it in fws0 ==> it in fws
      decreases AllItems(g) - (set j | 0 <= j < k :: configs[j])
    {
      ghost var seen := set j | 0 <= j < k :: configs[j];
      var configs', fws', links' := CloseOne(g, lambda, first, basis, configs, fws, links, k);
      AccountMore(g, configs, configs', fws0, fws, fws', links, links', k);
      assert (set j | 0 <= j < k + 1 :: configs'[j]) == seen + {configs[k]};
      assert configs[k] in AllItems(g) && configs[k] !in seen;
      configs, fws, links := configs', fws', links';
      k := k + 1;
    }
  }
}
