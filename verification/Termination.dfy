/** When the loop of `Parse` (tools/lemon/lempar.c) comes to an end on every token. */
module Termination {
  // A parser that only reduces must in the end build on empty right-hand sides. It cannot do so for ever unless the
  // grammar lets a nonterminal come back, either as its own only part, or behind parts that vanish.

  import opened Grammars
  import opened FirstSets
  import opened Driver
  import opened LrTheory

  // ----- nonterminals that come back

  /** Position `i` of rule `r`, a rule of `c`, has `d` behind symbols that can all vanish. */
  ghost predicate LeftAt(g: Grammar, r: nat, i: nat, c: nat, d: nat) {
    && r < |g.rules| && g.rules[r].lhs == c && i < |g.rules[r].rhs| && g.rules[r].rhs[i] == Sym(d)
    && NullableSeq(g, g.rules[r].rhs[..i])
  }

  /** A rule of `c` can begin with `d`. */
  ghost predicate LeftStep(g: Grammar, c: nat, d: nat) {
    exists r: nat, i: nat :: LeftAt(g, r, i, c, d)
  }

  /** ... hidden behind something. */
  ghost predicate HiddenStep(g: Grammar, c: nat, d: nat) {
    exists r: nat, i: nat :: LeftAt(g, r, i, c, d) && i > 0
  }

  ghost predicate LeftPath(g: Grammar, c: nat, d: nat, n: nat)
    decreases n
  {
    if n == 0 then c == d else exists e :: LeftStep(g, c, e) && LeftPath(g, e, d, n - 1)
  }

  /** A path with a hidden step. */
  ghost predicate HiddenPath(g: Grammar, c: nat, d: nat, n: nat)
    decreases n
  {
    n > 0 &&
    ((exists e :: HiddenStep(g, c, e) && LeftPath(g, e, d, n - 1)) || (exists e :: LeftStep(g, c, e) && HiddenPath(g, e, d, n - 1)))
  }

  ghost predicate HiddenLeft(g: Grammar, c: nat, d: nat) {
    exists n: nat :: HiddenPath(g, c, d, n)
  }

  /** A rule of `c` has `d` first and behind it only symbols that can vanish. */
  ghost predicate UnitAt(g: Grammar, r: nat, c: nat, d: nat) {
    && r < |g.rules| && g.rules[r].lhs == c && g.rules[r].rhs != [] && g.rules[r].rhs[0] == Sym(d)
    && NullableSeq(g, g.rules[r].rhs[1..])
  }

  ghost predicate UnitStep(g: Grammar, c: nat, d: nat) {
    exists r: nat :: UnitAt(g, r, c, d)
  }

  ghost predicate UnitPath(g: Grammar, c: nat, d: nat, n: nat)
    decreases n
  {
    if n == 0 then c == d else exists e :: UnitStep(g, c, e) && UnitPath(g, e, d, n - 1)
  }

  ghost predicate UnitReach(g: Grammar, c: nat, d: nat) {
    exists n: nat :: n > 0 && UnitPath(g, c, d, n)
  }

  ghost predicate OccursIn(g: Grammar, r: nat, c: nat) {
    r < |g.rules| && Sym(c) in g.rules[r].rhs
  }

  ghost predicate ReachIn(g: Grammar, c: nat, n: nat)
    decreases n
  {
    if n == 0 then c == g.start else exists r: nat :: OccursIn(g, r, c) && ReachIn(g, g.rules[r].lhs, n - 1)
  }

  /** `c` occurs in something the start symbol derives. */
  ghost predicate Reachable(g: Grammar, c: nat) {
    exists n: nat :: ReachIn(g, c, n)
  }

  /** No nonterminal in use comes back hidden (hidden left recursion) or as all that is left of itself (a cycle). */
  ghost predicate Loopless(g: Grammar) {
    forall c :: Reachable(g, c) ==> !HiddenLeft(g, c, c) && !UnitReach(g, c, c)
  }

  lemma ReachMore(g: Grammar, r: nat, c: nat)
    requires OccursIn(g, r, c) && Reachable(g, g.rules[r].lhs)
    ensures Reachable(g, c)
  {
    var n: nat :| ReachIn(g, g.rules[r].lhs, n);
    assert ReachIn(g, c, n + 1);
  }

  lemma LeftMore(g: Grammar, c: nat, d: nat, e: nat)
    requires LeftStep(g, c, d) && HiddenLeft(g, d, e)
    ensures HiddenLeft(g, c, e)
  {
    var n: nat :| HiddenPath(g, d, e, n);
    assert HiddenPath(g, c, e, n + 1);
  }

  lemma HiddenOnce(g: Grammar, c: nat, d: nat)
    requires HiddenStep(g, c, d)
    ensures HiddenLeft(g, c, d)
  {
    assert LeftPath(g, d, d, 0);
    assert HiddenPath(g, c, d, 1);
  }

  lemma UnitMore(g: Grammar, c: nat, d: nat, e: nat)
    requires UnitStep(g, c, d)
    ensures UnitReach(g, d, e) ==> UnitReach(g, c, e)
    ensures UnitReach(g, c, d)
  {
    if UnitReach(g, d, e) {
      var n: nat :| n > 0 && UnitPath(g, d, e, n);
      assert UnitPath(g, c, e, n + 1);
    }
    assert UnitPath(g, d, d, 0);
    assert UnitPath(g, c, d, 1);
  }

  // ----- two ranks

  lemma SmallerSet(a: set<nat>, b: set<nat>)
    requires a <= b
    ensures |a| <= |b| && (a != b ==> |a| < |b|)
  {
    assert |b - a| == |b| - |a|;
  }

  lemma BelowCount(s: set<nat>, n: nat)
    requires forall x :: x in s ==> x < n
    ensures |s| <= n
    decreases n
  {
    if n > 0 {
      BelowCount(s - {n - 1}, n - 1);
      assert s <= (s - {n - 1}) + {n - 1};
      SmallerSet(s, (s - {n - 1}) + {n - 1});
    } else if x :| x in s {
      assert false;
    }
  }

  ghost function HiddenSet(g: Grammar, c: nat): set<nat> {
    set d: nat | d < g.nsymbol && HiddenLeft(g, c, d)
  }

  ghost function HiddenRank(g: Grammar, c: nat): nat {
    |HiddenSet(g, c)|
  }

  /** What a nonterminal begins with has no higher rank, and a lower one if it is hidden. */
  lemma HiddenRankFalls(g: Grammar, c: nat, d: nat)
    requires LeftStep(g, c, d) && d < g.nsymbol && !HiddenLeft(g, d, d)
    ensures HiddenRank(g, d) <= HiddenRank(g, c) && (HiddenStep(g, c, d) ==> HiddenRank(g, d) < HiddenRank(g, c))
  {
    forall e | e in HiddenSet(g, d) ensures e in HiddenSet(g, c) {
      LeftMore(g, c, d, e);
    }
    if HiddenStep(g, c, d) {
      HiddenOnce(g, c, d);
      assert d in HiddenSet(g, c) && d !in HiddenSet(g, d);
    }
    SmallerSet(HiddenSet(g, d), HiddenSet(g, c));
  }

  lemma HiddenRankBound(g: Grammar, c: nat)
    requires c < g.nsymbol && !HiddenLeft(g, c, c)
    ensures HiddenRank(g, c) < g.nsymbol
  {
    var s := HiddenSet(g, c);
    BelowCount(s + {c}, g.nsymbol);
  }

  ghost function UnitSet(g: Grammar, c: nat): set<nat> {
    set d: nat | d < g.nsymbol && UnitReach(g, c, d)
  }

  /** Tokens are below all nonterminals. */
  ghost function UnitRank(g: Grammar, c: nat): nat {
    if c < g.nterminal then 0 else 1 + |UnitSet(g, c)|
  }

  lemma UnitRankBound(g: Grammar, c: nat)
    ensures UnitRank(g, c) <= g.nsymbol + 1
  {
    BelowCount(UnitSet(g, c), g.nsymbol);
  }

  lemma UnitRankRises(g: Grammar, c: nat, d: nat)
    requires UnitStep(g, c, d) && d < g.nsymbol && !UnitReach(g, d, d) && g.nterminal <= c
    ensures UnitRank(g, d) < UnitRank(g, c)
  {
    forall e | e in UnitSet(g, d) ensures e in UnitSet(g, c) {
      UnitMore(g, c, d, e);
    }
    UnitMore(g, c, d, d);
    assert d in UnitSet(g, c) && d !in UnitSet(g, d);
    SmallerSet(UnitSet(g, d), UnitSet(g, c));
  }

  // ----- how high a stack of vanishing symbols can be

  /** The configurations of a state come from its dotted ones, or from the start rules in state 0. */
  lemma FromKernel(g: Grammar, a: Automaton, q: nat, s: set<Item>)
    requires LeastItems(g, a) && q < |a.items|
    requires forall it :: Has(a, q, it) && Kernel(g, q, it) ==> it in s
    requires forall it, r: nat :: it in s && Has(a, q, it) && CallsRule(g, it, r) ==> Item(r, 0) in s
    ensures a.items[q] <= s
  {
    assert LeastItemsAt(g, a, q, s);
  }

  /** Whatever is in a state that the stack leads to is of use. */
  lemma {:induction false} ItemsReachable(g: Grammar, a: Automaton, stack: seq<Entry>, it: Item)
    requires Lr0(g, a) && LeastItems(g, a) && Path(a, stack) && Has(a, TopState(stack), it)
    ensures it.rule < |g.rules| && Reachable(g, g.rules[it.rule].lhs)
    decreases |stack|
  {
    hide Reachable;
    var q := TopState(stack);
    var s := set x | x in a.items[q] && x.rule < |g.rules| && Reachable(g, g.rules[x.rule].lhs);
    forall x | Has(a, q, x) && Kernel(g, q, x) ensures x in s {
      assert WfAt(g, a, q, x);
      if x.dot > 0 {
        StepBack(g, a, TopState(stack[..|stack| - 1]), stack[|stack| - 1].major, q, x);
        ItemsReachable(g, a, stack[..|stack| - 1], Item(x.rule, x.dot - 1));
      } else {
        StartReachable(g);
      }
    }
    forall x, r: nat | x in s && Has(a, q, x) && CallsRule(g, x, r) ensures Item(r, 0) in s {
      assert OccursIn(g, x.rule, g.rules[r].lhs);
      ReachMore(g, x.rule, g.rules[r].lhs);
      RulesThere(g, a, q, x, r);
    }
    FromKernel(g, a, q, s);
  }

  /** Whatever is in any state is of use, if every state is shifted to. */
  lemma {:induction false} StateReachable(g: Grammar, a: Automaton, q: nat, it: Item)
    requires Lr0(g, a) && LeastItems(g, a) && AllReached(a) && Has(a, q, it)
    ensures it.rule < |g.rules| && Reachable(g, g.rules[it.rule].lhs)
    decreases q
  {
    hide Reachable;
    var s := set x | x in a.items[q] && x.rule < |g.rules| && Reachable(g, g.rules[x.rule].lhs);
    forall x | Has(a, q, x) && Kernel(g, q, x) ensures x in s {
      assert WfAt(g, a, q, x);
      if x.dot > 0 {
        assert ReachedAt(a, q);
        var q0: nat, z :| q0 < q && Goes(a, q0, z, q);
        assert BackedAt(g, a, q0, z, q, x);
        StateReachable(g, a, q0, Item(x.rule, x.dot - 1));
      } else {
        StartReachable(g);
      }
    }
    forall x, r: nat | x in s && Has(a, q, x) && CallsRule(g, x, r) ensures Item(r, 0) in s {
      assert OccursIn(g, x.rule, g.rules[r].lhs);
      ReachMore(g, x.rule, g.rules[r].lhs);
      RulesThere(g, a, q, x, r);
    }
    FromKernel(g, a, q, s);
  }

  lemma StartReachable(g: Grammar)
    ensures Reachable(g, g.start)
  {
    assert ReachIn(g, g.start, 0);
  }

  ghost function Longest(rules: seq<Rule>): nat {
    if rules == [] then 0
    else if |rules[|rules| - 1].rhs| > Longest(rules[..|rules| - 1]) then |rules[|rules| - 1].rhs|
    else Longest(rules[..|rules| - 1])
  }

  lemma {:induction false} NoLonger(rules: seq<Rule>, r: nat)
    requires r < |rules|
    ensures |rules[r].rhs| <= Longest(rules)
    decreases |rules|
  {
    if r < |rules| - 1 {
      NoLonger(rules[..|rules| - 1], r);
    }
  }

  /** The entries from `base` on carry symbols that can vanish. */
  ghost predicate VanishFrom(g: Grammar, stack: seq<Entry>, base: nat) {
    forall k :: base <= k < |stack| ==> Nullable(g, stack[k].major)
  }

  lemma NullableIsRule(g: Grammar, c: nat)
    requires WfGrammar(g) && Nullable(g, c)
    ensures g.nterminal <= c < g.nsymbol
  {
    var n: nat :| NullableIn(g, c, n);
    var r: nat :| r < |g.rules| && g.rules[r].lhs == c && RuleVanishes(g, g.rules[r].rhs, n - 1);
    assert WfRule(g, g.rules[r]);
  }

  /** A nonterminal fits only itself. */
  lemma FitsItself(g: Grammar, r: nat, i: nat, c: nat)
    requires WfGrammar(g) && r < |g.rules| && i < |g.rules[r].rhs| && Fits(c, g.rules[r].rhs[i]) && g.nterminal <= c
    ensures g.rules[r].rhs[i] == Sym(c)
  {
    assert WfRule(g, g.rules[r]) && g.rules[r].rhs[i] in g.rules[r].rhs;
    assert WfSymbol(g, g.rules[r].rhs[i]);
  }

  /** Symbols on the stack that can vanish make the part of the rule they stand for vanish. */
  lemma SpelledVanishes(g: Grammar, r: nat, from: nat, to: nat, w: seq<nat>)
    requires WfGrammar(g) && r < |g.rules| && from <= to <= |g.rules[r].rhs| && Spells(w, g.rules[r].rhs[from..to])
    requires forall k :: 0 <= k < |w| ==> Nullable(g, w[k])
    ensures NullableSeq(g, g.rules[r].rhs[from..to])
  {
    var xs := g.rules[r].rhs[from..to];
    forall k | 0 <= k < |xs| ensures xs[k].Sym? && Nullable(g, xs[k].code) {
      NullableIsRule(g, w[k]);
      FitsItself(g, r, from + k, w[k]);
    }
  }

  lemma TimesMore(x: int, y: int, l: nat)
    requires x + 1 <= y
    ensures x * l + l <= y * l
  {
    TimesNoLess(x + 1, y, l);
  }

  lemma TimesNoLess(x: int, y: int, l: nat)
    requires x <= y
    ensures x * l <= y * l
  {
    assert 0 <= (y - x) * l == y * l - x * l;
  }

  /** A rule of `c` may start in the `i`-th state above the base. */
  ghost predicate StartsLow(g: Grammar, i: nat, c: nat) {
    i <= (g.nsymbol - HiddenRank(g, c)) * Longest(g.rules)
  }

  /** Rules that start above the base, on a stack of symbols that vanish, start the lower the higher their rank. */
  lemma {:induction false} RulesStartLow(g: Grammar, a: Automaton, stack: seq<Entry>, base: nat, r: nat)
    requires WfGrammar(g) && Lr0(g, a) && LeastItems(g, a) && Loopless(g) && Path(a, stack)
    requires 0 < base <= |stack| && VanishFrom(g, stack, base) && Has(a, TopState(stack), Item(r, 0))
    ensures r < |g.rules| && StartsLow(g, |stack| - base, g.rules[r].lhs)
    decreases |stack|
  {
    hide Loopless, StartsLow, Path;
    var q := TopState(stack);
    var s := set x | x in a.items[q] && x.rule < |g.rules| && (x.dot > 0 || StartsLow(g, |stack| - base, g.rules[x.rule].lhs));
    forall x | Has(a, q, x) && Kernel(g, q, x) ensures x in s {
      assert WfAt(g, a, q, x);
      if x.dot == 0 {
        StateZeroIsBottom(g, a, stack);
        LowAtBase(g, a, stack, x);
      }
    }
    forall x, k: nat | x in s && Has(a, q, x) && CallsRule(g, x, k) ensures Item(k, 0) in s {
      if 0 < x.dot <= |stack| - base {
        Handle(g, a, stack, x);
        PathPrefix(a, stack, |stack| - x.dot);
        RulesStartLow(g, a, stack[..|stack| - x.dot], base, x.rule);
      }
      CalledLow(g, a, stack, base, x, k);
      RulesThere(g, a, q, x, k);
    }
    FromKernel(g, a, q, s);
  }

  lemma LowAtBase(g: Grammar, a: Automaton, stack: seq<Entry>, it: Item)
    requires WfGrammar(g) && Lr0(g, a) && LeastItems(g, a) && Loopless(g) && Path(a, stack) && Has(a, TopState(stack), it)
    ensures it.rule < |g.rules| && StartsLow(g, 0, g.rules[it.rule].lhs)
  {
    ItemsReachable(g, a, stack, it);
    assert WfRule(g, g.rules[it.rule]);
    HiddenRankBound(g, g.rules[it.rule].lhs);
    TimesNoLess(0, g.nsymbol - HiddenRank(g, g.rules[it.rule].lhs), Longest(g.rules));
  }

  /** One call: from an undotted configuration in the same state, or from a dotted one that began lower. */
  lemma CalledLow(g: Grammar, a: Automaton, stack: seq<Entry>, base: nat, it: Item, r: nat)
    requires WfGrammar(g) && Lr0(g, a) && LeastItems(g, a) && Loopless(g) && Path(a, stack)
    requires 0 < base <= |stack| && VanishFrom(g, stack, base) && Has(a, TopState(stack), it) && CallsRule(g, it, r)
    requires it.dot <= |stack| - base ==> StartsLow(g, |stack| - base - it.dot, g.rules[it.rule].lhs)
    ensures StartsLow(g, |stack| - base, g.rules[r].lhs)
  {
    hide Loopless, Path, HiddenRank, Longest;
    var i, c, d := |stack| - base, g.rules[it.rule].lhs, g.rules[r].lhs;
    assert WfAt(g, a, TopState(stack), it) && WfRule(g, g.rules[r]);
    NoLonger(g.rules, it.rule);
    CalledRank(g, a, stack, it, r);
    if it.dot <= i {
      if it.dot > 0 {
        HiddenBehind(g, a, stack, base, it, r);
        TimesMore(g.nsymbol - HiddenRank(g, c), g.nsymbol - HiddenRank(g, d), Longest(g.rules));
      } else {
        FirstOfAll(g, a, stack, it, r);
        TimesNoLess(g.nsymbol - HiddenRank(g, c), g.nsymbol - HiddenRank(g, d), Longest(g.rules));
      }
    } else {
      TimesNoLess(1, g.nsymbol - HiddenRank(g, d), Longest(g.rules));
    }
  }

  lemma CalledRank(g: Grammar, a: Automaton, stack: seq<Entry>, it: Item, r: nat)
    requires WfGrammar(g) && Lr0(g, a) && LeastItems(g, a) && Loopless(g) && Path(a, stack)
    requires Has(a, TopState(stack), it) && CallsRule(g, it, r)
    ensures !HiddenLeft(g, g.rules[r].lhs, g.rules[r].lhs) && HiddenRank(g, g.rules[r].lhs) < g.nsymbol
  {
    ItemsReachable(g, a, stack, it);
    assert OccursIn(g, it.rule, g.rules[r].lhs) && WfRule(g, g.rules[r]);
    ReachMore(g, it.rule, g.rules[r].lhs);
    HiddenRankBound(g, g.rules[r].lhs);
  }

  lemma FirstOfAll(g: Grammar, a: Automaton, stack: seq<Entry>, it: Item, r: nat)
    requires WfGrammar(g) && Lr0(g, a) && LeastItems(g, a) && Loopless(g) && Path(a, stack)
    requires Has(a, TopState(stack), it) && CallsRule(g, it, r) && it.dot == 0
    ensures HiddenRank(g, g.rules[r].lhs) <= HiddenRank(g, g.rules[it.rule].lhs)
  {
    CalledRank(g, a, stack, it, r);
    assert LeftAt(g, it.rule, 0, g.rules[it.rule].lhs, g.rules[r].lhs);
    assert WfRule(g, g.rules[r]);
    HiddenRankFalls(g, g.rules[it.rule].lhs, g.rules[r].lhs);
  }

  lemma HiddenBehind(g: Grammar, a: Automaton, stack: seq<Entry>, base: nat, it: Item, r: nat)
    requires WfGrammar(g) && Lr0(g, a) && LeastItems(g, a) && Loopless(g) && Path(a, stack)
    requires 0 < base <= |stack| && VanishFrom(g, stack, base) && Has(a, TopState(stack), it) && CallsRule(g, it, r)
    requires 0 < it.dot <= |stack| - base
    ensures HiddenRank(g, g.rules[r].lhs) < HiddenRank(g, g.rules[it.rule].lhs)
  {
    hide Loopless, Path, HiddenRank;
    CalledRank(g, a, stack, it, r);
    Handle(g, a, stack, it);
    var top := stack[|stack| - it.dot..];
    assert g.rules[it.rule].rhs[0..it.dot] == g.rules[it.rule].rhs[..it.dot];
    forall k | 0 <= k < |Majors(top)| ensures Nullable(g, Majors(top)[k]) {
      assert top[k] == stack[|stack| - it.dot + k];
    }
    SpelledVanishes(g, it.rule, 0, it.dot, Majors(top));
    assert LeftAt(g, it.rule, it.dot, g.rules[it.rule].lhs, g.rules[r].lhs);
    assert WfRule(g, g.rules[r]);
    HiddenRankFalls(g, g.rules[it.rule].lhs, g.rules[r].lhs);
  }

  /** A state that the stack leads to above the bottom has a dotted configuration. */
  lemma TopIsDotted(g: Grammar, a: Automaton, stack: seq<Entry>) returns (it: Item)
    requires Lr0(g, a) && Path(a, stack) && |stack| > 1
    ensures Has(a, TopState(stack), it) && it.dot > 0
  {
    var q, c := TopState(stack[..|stack| - 1]), stack[|stack| - 1].major;
    var x :| Goes(a, q, x, TopState(stack)) && Fits(c, x);
    assert TightAt(g, a, q, x, TopState(stack));
    var prev :| Has(a, q, prev) && Shiftable(g, prev) && After(g, prev) == x;
    assert ForwardAt(g, a, q, prev);
    it := Advance(prev);
  }

  ghost function Height(g: Grammar): nat {
    g.nsymbol * Longest(g.rules) + Longest(g.rules)
  }

  /** The height of a stack of symbols that vanish. */
  lemma HeightBound(g: Grammar, a: Automaton, stack: seq<Entry>, base: nat)
    requires WfGrammar(g) && Lr0(g, a) && LeastItems(g, a) && Loopless(g) && Path(a, stack)
    requires 0 < base <= |stack| && VanishFrom(g, stack, base)
    ensures |stack| - base <= Height(g)
  {
    hide Loopless, Path, HiddenRank, Longest, Lr0;
    if |stack| > base {
      var it := TopIsDotted(g, a, stack);
      Handle(g, a, stack, it);
      NoLonger(g.rules, it.rule);
      TimesNoLess(0, g.nsymbol, Longest(g.rules));
      if it.dot <= |stack| - base {
        PathPrefix(a, stack, |stack| - it.dot);
        RulesStartLow(g, a, stack[..|stack| - it.dot], base, it.rule);
        TimesNoLess(g.nsymbol - HiddenRank(g, g.rules[it.rule].lhs), g.nsymbol, Longest(g.rules));
      }
    }
  }

  // ----- the loop comes to an end

  /** The table does what the automaton allows. */
  ghost predicate Allowed(g: Grammar, a: Automaton, tb: Table) {
    WfGrammar(g) && StartIsFresh(g) && Lr0(g, a) && SoundTable(g, a, tb)
  }

  /** ... for a grammar where nothing comes back. */
  ghost predicate Tame(g: Grammar, a: Automaton, tb: Table) {
    Allowed(g, a, tb) && LeastItems(g, a) && Loopless(g)
  }

  /** `n` reduces on `tok` lead from `p` to `p'`. */
  ghost predicate Reduces(g: Grammar, tb: Table, p: Parser, tok: nat, p': Parser, n: nat)
    decreases n
  {
    if n == 0 then p' == p
    else var s := LoopStep(g, tb, p, tok); s.Again? && Reduces(g, tb, s.p, tok, p', n - 1)
  }

  lemma {:induction false} ReducesRun(g: Grammar, tb: Table, p: Parser, rest: seq<nat>, p': Parser, k: nat)
    requires Reduces(g, tb, p, Ahead(rest), p', k)
    ensures Run(g, tb, Running(p, rest), k) == Running(p', rest)
    decreases k
  {
    hide LoopStep;
    if k > 0 {
      ReducesRun(g, tb, LoopStep(g, tb, p, Ahead(rest)).p, rest, p', k - 1);
    }
  }

  lemma {:induction false} SettlesAfter(g: Grammar, tb: Table, p: Parser, tok: nat, m: Parser, k: nat, o: Outcome, n: nat)
    requires Reduces(g, tb, p, tok, m, k) && Settles(g, tb, p, tok, o, n)
    ensures k <= n && Settles(g, tb, m, tok, o, n - k)
    decreases k
  {
    hide LoopStep;
    if k > 0 {
      SettlesAfter(g, tb, LoopStep(g, tb, p, tok).p, tok, m, k - 1, o, n - 1);
    }
  }

  ghost predicate Ends(g: Grammar, tb: Table, p: Parser, tok: nat) {
    exists o, n: nat :: Settles(g, tb, p, tok, o, n)
  }

  lemma {:induction false} ReducesMore(g: Grammar, tb: Table, p: Parser, tok: nat, p': Parser, n: nat, p'': Parser, m: nat)
    requires Reduces(g, tb, p, tok, p', n) && Reduces(g, tb, p', tok, p'', m)
    ensures Reduces(g, tb, p, tok, p'', n + m)
    decreases n
  {
    if n > 0 {
      ReducesMore(g, tb, LoopStep(g, tb, p, tok).p, tok, p', n - 1, p'', m);
    }
  }

  lemma {:induction false} ReducesToEnd(g: Grammar, tb: Table, p: Parser, tok: nat, p': Parser, n: nat)
    requires Reduces(g, tb, p, tok, p', n) && Ends(g, tb, p', tok)
    ensures Ends(g, tb, p, tok)
    decreases n
  {
    if n > 0 {
      var s := LoopStep(g, tb, p, tok);
      ReducesToEnd(g, tb, s.p, tok, p', n - 1);
      var o, m: nat :| Settles(g, tb, s.p, tok, o, m);
      assert Settles(g, tb, p, tok, o, m + 1);
    }
  }

  lemma EndsNow(g: Grammar, tb: Table, p: Parser, tok: nat)
    requires !LoopStep(g, tb, p, tok).Again?
    ensures Ends(g, tb, p, tok)
  {
    assert Settles(g, tb, p, tok, LoopStep(g, tb, p, tok), 0);
  }

  /** One reduce: the handle is replaced by the left-hand side, or the loop is about to accept. */
  lemma ReduceOnce(g: Grammar, a: Automaton, tb: Table, p: Parser, tok: nat, r: nat) returns (p': Parser)
    requires Allowed(g, a, tb) && Path(a, p.stack) && r < |g.rules| && Has(a, TopState(p.stack), Final(g, r))
    requires NextAct(tb, p.stack, tok) == Reduce(r)
    ensures LoopStep(g, tb, p, tok) == Again(p') && |g.rules[r].rhs| < |p.stack|
    ensures Spells(Majors(p.stack[|p.stack| - |g.rules[r].rhs|..]), g.rules[r].rhs)
    ensures Ends(g, tb, p', tok) || Replaced(a, p.stack, p'.stack, |g.rules[r].rhs|, g.rules[r].lhs)
    ensures var under := p.stack[..|p.stack| - |g.rules[r].rhs|];
            p'.stack == under + [Entry(Lookup(tb, TopState(under), g.rules[r].lhs), g.rules[r].lhs)]
  {
    hide Lr0, SoundTable, Path, Majors, Symbols, StartIsFresh;
    var k, c := |g.rules[r].rhs|, g.rules[r].lhs;
    ReduceStack(g, a, tb, p.stack, r);
    var under := p.stack[..|p.stack| - k];
    PathEnds(a, p.stack);
    PathEnds(a, under);
    p' := p.(stack := under + [Entry(Lookup(tb, TopState(under), c), c)], trail := [r] + p.trail);
    assert p'.stack[|under|] == Entry(Lookup(tb, TopState(under), c), c);
    assert ReduceStep(g, tb, p, r) == Again(p');
    if c == g.start {
      EndsNow(g, tb, p', tok);
    }
  }

  ghost predicate Replaced(a: Automaton, stack: seq<Entry>, stack': seq<Entry>, k: nat, c: nat) {
    && k < |stack| && |stack'| == |stack| - k + 1 && stack'[..|stack| - k] == stack[..|stack| - k]
    && stack'[|stack| - k].major == c && Path(a, stack')
  }

  lemma PathEnds(a: Automaton, stack: seq<Entry>)
    requires Path(a, stack)
    ensures stack != [] && stack[|stack| - 1].act == Shift(TopState(stack)) && TopState(stack) < |a.items|
  {
  }

  lemma ReducesOnce(g: Grammar, tb: Table, p: Parser, tok: nat, m: Parser, n: nat, p': Parser)
    requires Reduces(g, tb, p, tok, m, n) && LoopStep(g, tb, m, tok) == Again(p')
    ensures Reduces(g, tb, p, tok, p', n + 1)
  {
    assert Reduces(g, tb, p', tok, p', 0);
    assert Reduces(g, tb, m, tok, p', 1);
    ReducesMore(g, tb, p, tok, m, n, p', 1);
  }

  /** Behind the first symbol of a handle all can vanish: then its left-hand side has a higher rank. */
  lemma UnitHandle(g: Grammar, a: Automaton, stack: seq<Entry>, r: nat)
    requires WfGrammar(g) && Lr0(g, a) && LeastItems(g, a) && Loopless(g)
    requires Path(a, stack) && r < |g.rules| && Has(a, TopState(stack), Final(g, r))
    requires 0 < |g.rules[r].rhs| < |stack| && VanishFrom(g, stack, |stack| - |g.rules[r].rhs| + 1)
    requires Spells(Majors(stack[|stack| - |g.rules[r].rhs|..]), g.rules[r].rhs)
    ensures UnitRank(g, stack[|stack| - |g.rules[r].rhs|].major) < UnitRank(g, g.rules[r].lhs)
    ensures Nullable(g, stack[|stack| - |g.rules[r].rhs|].major) ==> Nullable(g, g.rules[r].lhs)
  {
    hide Loopless, Path, Lr0, UnitRank, Nullable;
    var k, rhs := |g.rules[r].rhs|, g.rules[r].rhs;
    var top := stack[|stack| - k..];
    var w, c := Majors(top), stack[|stack| - k].major;
    assert WfRule(g, g.rules[r]) && w[0] == c && rhs[0] in rhs;
    VanishTail(g, stack, r);
    if Nullable(g, c) {
      NullableIsRule(g, c);
    }
    if g.nterminal <= c {
      FitsItself(g, r, 0, c);
      assert UnitAt(g, r, g.rules[r].lhs, c);
      NotRound(g, a, stack, r, c);
      UnitRankRises(g, g.rules[r].lhs, c);
      if Nullable(g, c) {
        assert NullableSeq(g, rhs) by {
          forall i | 0 <= i < |rhs| ensures rhs[i].Sym? && Nullable(g, rhs[i].code) {
            assert i > 0 ==> rhs[i] == rhs[1..][i - 1];
          }
        }
        NullableRule(g, r);
      }
    } else {
      TokenRank(g, c, g.rules[r].lhs);
    }
  }

  lemma VanishTail(g: Grammar, stack: seq<Entry>, r: nat)
    requires WfGrammar(g) && r < |g.rules|
    requires 0 < |g.rules[r].rhs| < |stack| && VanishFrom(g, stack, |stack| - |g.rules[r].rhs| + 1)
    requires Spells(Majors(stack[|stack| - |g.rules[r].rhs|..]), g.rules[r].rhs)
    ensures NullableSeq(g, g.rules[r].rhs[1..])
  {
    var k, rhs := |g.rules[r].rhs|, g.rules[r].rhs;
    var w := Majors(stack[|stack| - k..])[1..];
    assert rhs[1..] == rhs[1..k];
    forall i | 0 <= i < |w| ensures Nullable(g, w[i]) && Fits(w[i], rhs[1..k][i]) {
      assert w[i] == stack[|stack| - k + 1 + i].major;
      assert Majors(stack[|stack| - k..])[i + 1] == w[i];
    }
    SpelledVanishes(g, r, 1, k, w);
  }

  lemma NotRound(g: Grammar, a: Automaton, stack: seq<Entry>, r: nat, c: nat)
    requires WfGrammar(g) && Lr0(g, a) && LeastItems(g, a) && Loopless(g) && Path(a, stack)
    requires r < |g.rules| && Has(a, TopState(stack), Final(g, r)) && g.rules[r].rhs != [] && g.rules[r].rhs[0] == Sym(c)
    ensures c < g.nsymbol && !UnitReach(g, c, c)
  {
    ItemsReachable(g, a, stack, Final(g, r));
    assert OccursIn(g, r, c) && WfRule(g, g.rules[r]);
    assert WfSymbol(g, g.rules[r].rhs[0]);
    ReachMore(g, r, c);
  }

  lemma TokenRank(g: Grammar, t: nat, c: nat)
    requires t < g.nterminal <= c
    ensures UnitRank(g, t) < UnitRank(g, c)
  {
  }

  lemma SoundHere(g: Grammar, a: Automaton, tb: Table, q: nat, c: nat)
    requires SoundTable(g, a, tb) && q < |a.items| && c < g.nterminal
    ensures SoundAct(g, a, q, c, Lookup(tb, q, c))
  {
    assert SoundAt(g, a, tb, q, c);
  }

  lemma NothingAbove(g: Grammar, stack: seq<Entry>)
    ensures VanishFrom(g, stack, |stack|) && stack[..|stack|] == stack
  {
  }

  lemma EmptyVanishes(g: Grammar, r: nat)
    requires r < |g.rules| && g.rules[r].rhs == []
    ensures Nullable(g, g.rules[r].lhs)
  {
    NullableRule(g, r);
  }

  // ----- grammars without empty rules

  ghost predicate SingleStep(g: Grammar, c: nat, d: nat) {
    exists r: nat :: r < |g.rules| && g.rules[r] == Rule(c, [Sym(d)])
  }

  /** `n` unit rules lead from `c` to `d`. */
  ghost predicate SinglePath(g: Grammar, c: nat, d: nat, n: nat)
    decreases n
  {
    if n == 0 then c == d else exists e :: SingleStep(g, c, e) && SinglePath(g, e, d, n - 1)
  }

  lemma {:induction false} NothingVanishes(g: Grammar, c: nat, n: nat)
    requires forall r: nat :: r < |g.rules| ==> g.rules[r].rhs != []
    ensures !NullableIn(g, c, n)
    decreases n
  {
    if NullableIn(g, c, n) {
      var r: nat :| r < |g.rules| && g.rules[r].lhs == c && RuleVanishes(g, g.rules[r].rhs, n - 1);
      assert g.rules[r].rhs[0].Sym? && NullableIn(g, g.rules[r].rhs[0].code, n - 1);
      NothingVanishes(g, g.rules[r].rhs[0].code, n - 1);
    }
  }

  lemma OnlyEmptyVanishes(g: Grammar, xs: seq<Symbol>)
    requires forall r: nat :: r < |g.rules| ==> g.rules[r].rhs != []
    ensures NullableSeq(g, xs) ==> xs == []
  {
    if NullableSeq(g, xs) && xs != [] {
      assert xs[0].Sym? && Nullable(g, xs[0].code);
      var n: nat :| NullableIn(g, xs[0].code, n);
      NothingVanishes(g, xs[0].code, n);
    }
  }

  lemma UnitIsSingle(g: Grammar, c: nat, d: nat)
    requires (forall r: nat :: r < |g.rules| ==> g.rules[r].rhs != []) && UnitStep(g, c, d)
    ensures SingleStep(g, c, d)
  {
    var r: nat :| UnitAt(g, r, c, d);
    OnlyEmptyVanishes(g, g.rules[r].rhs[1..]);
    assert g.rules[r].rhs == [Sym(d)] + g.rules[r].rhs[1..];
  }

  lemma {:induction false} UnitsAreSingle(g: Grammar, c: nat, d: nat, n: nat)
    requires (forall r: nat :: r < |g.rules| ==> g.rules[r].rhs != []) && UnitPath(g, c, d, n)
    ensures SinglePath(g, c, d, n)
    decreases n
  {
    if n > 0 {
      var e :| UnitStep(g, c, e) && UnitPath(g, e, d, n - 1);
      UnitIsSingle(g, c, e);
      UnitsAreSingle(g, e, d, n - 1);
    }
  }

  lemma {:induction false} NothingHidden(g: Grammar, c: nat, d: nat, n: nat)
    requires forall r: nat :: r < |g.rules| ==> g.rules[r].rhs != []
    ensures !HiddenPath(g, c, d, n)
    decreases n
  {
    if n > 0 {
      forall e | LeftStep(g, c, e) ensures !HiddenStep(g, c, e) && !HiddenPath(g, e, d, n - 1) {
        NothingHidden(g, e, d, n - 1);
        NotBehind(g, c, e);
      }
      forall e ensures !HiddenStep(g, c, e) {
        NotBehind(g, c, e);
      }
    }
  }

  lemma NotBehind(g: Grammar, c: nat, d: nat)
    requires forall r: nat :: r < |g.rules| ==> g.rules[r].rhs != []
    ensures !HiddenStep(g, c, d)
  {
    forall r: nat, i: nat | i > 0 ensures !LeftAt(g, r, i, c, d) {
      if r < |g.rules| && i < |g.rules[r].rhs| {
        OnlyEmptyVanishes(g, g.rules[r].rhs[..i]);
      }
    }
  }

  /** With no empty right-hand side, nothing comes back exactly if no unit rules lead from a nonterminal in use to itself. */
  lemma WithoutEmptyRules(g: Grammar)
    requires forall r: nat :: r < |g.rules| ==> g.rules[r].rhs != []
    ensures Loopless(g) <==> forall c: nat, n: nat :: Reachable(g, c) && n > 0 ==> !SinglePath(g, c, c, n)
  {
    forall c: nat ensures !HiddenLeft(g, c, c) {
      forall n: nat ensures !HiddenPath(g, c, c, n) {
        NothingHidden(g, c, c, n);
      }
    }
    forall c: nat, n: nat ensures UnitPath(g, c, c, n) <==> SinglePath(g, c, c, n) {
      if UnitPath(g, c, c, n) {
        UnitsAreSingle(g, c, c, n);
      }
      if SinglePath(g, c, c, n) {
        SinglesAreUnits(g, c, c, n);
      }
    }
    if Loopless(g) {
      forall c: nat, n: nat | Reachable(g, c) && n > 0 ensures !SinglePath(g, c, c, n) {
        assert !UnitReach(g, c, c);
        assert !UnitPath(g, c, c, n);
      }
    } else {
      var c: nat :| Reachable(g, c) && !(!HiddenLeft(g, c, c) && !UnitReach(g, c, c));
      var n: nat :| n > 0 && UnitPath(g, c, c, n);
      assert SinglePath(g, c, c, n);
    }
  }

  lemma {:induction false} SinglesAreUnits(g: Grammar, c: nat, d: nat, n: nat)
    requires SinglePath(g, c, d, n)
    ensures UnitPath(g, c, d, n)
    decreases n
  {
    if n > 0 {
      var e :| SingleStep(g, c, e) && SinglePath(g, e, d, n - 1);
      var r: nat :| r < |g.rules| && g.rules[r] == Rule(c, [Sym(e)]);
      assert g.rules[r].rhs[1..] == [];
      assert UnitAt(g, r, c, e);
      SinglesAreUnits(g, e, d, n - 1);
      assert UnitStep(g, c, e) && UnitPath(g, e, d, n - 1);
    }
  }
}
