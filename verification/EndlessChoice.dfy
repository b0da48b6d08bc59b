/** A choice of rules that never stops. */
module EndlessChoice {
  // If a nonterminal in use comes back, a parser (tools/lemon/lempar.c) that is free to choose may reduce for ever.

  import opened Grammars
  import opened FirstSets
  import opened Driver
  import opened LrTheory
  import opened Termination
  import opened Choices

  /** Reducing by these rules, one after the other. */
  ghost predicate Plays(g: Grammar, a: Automaton, s: seq<Entry>, rules: seq<nat>, s': seq<Entry>)
    decreases |rules|
  {
    if rules == [] then s' == s else exists m :: MayReduce(g, a, s, rules[0], m) && Plays(g, a, m, rules[1..], s')
  }

  lemma {:induction false} PlaysMore(g: Grammar, a: Automaton, s: seq<Entry>, l: seq<nat>, m: seq<Entry>, l': seq<nat>, s': seq<Entry>)
    requires Plays(g, a, s, l, m) && Plays(g, a, m, l', s')
    ensures Plays(g, a, s, l + l', s')
    decreases |l|
  {
    hide MayReduce;
    if l == [] {
      assert l + l' == l';
    } else {
      var m1 :| MayReduce(g, a, s, l[0], m1) && Plays(g, a, m1, l[1..], m);
      PlaysMore(g, a, m1, l[1..], m, l', s');
      assert (l + l')[1..] == l[1..] + l';
    }
  }

  lemma PlaysOnce(g: Grammar, a: Automaton, s: seq<Entry>, l: seq<nat>, m: seq<Entry>, r: nat, s': seq<Entry>)
    requires Plays(g, a, s, l, m) && MayReduce(g, a, m, r, s')
    ensures Plays(g, a, s, l + [r], s')
  {
    hide MayReduce;
    assert [r][1..] == [] && Plays(g, a, s', [], s');
    assert Plays(g, a, m, [r], s');
    PlaysMore(g, a, s, l, m, [r], s');
  }

  // ----- symbols that vanish are put on the stack

  /** With `s` under a complete rule of `c`, which the top of `s` asks for, the reduce puts `c` on `s`. */
  lemma Reducing(g: Grammar, a: Automaton, s: seq<Entry>, it: Item, r: nat, s1: seq<Entry>) returns (s2: seq<Entry>)
    requires WfGrammar(g) && Lr0(g, a) && Path(a, s) && Path(a, s1) && Has(a, TopState(s), it) && Shiftable(g, it)
    requires r < |g.rules| && After(g, it) == Sym(g.rules[r].lhs) && Has(a, TopState(s1), Final(g, r))
    requires |s1| == |s| + |g.rules[r].rhs| && s1[..|s|] == s && s != []
    ensures MayReduce(g, a, s1, r, s2) && Path(a, s2) && |s2| == |s| + 1 && s2[..|s|] == s
    ensures s2[|s|].major == g.rules[r].lhs && Has(a, TopState(s2), Advance(it))
  {
    hide Path;
    var c := g.rules[r].lhs;
    assert ForwardAt(g, a, TopState(s), it);
    var q: nat :| Goes(a, TopState(s), Sym(c), q) && Has(a, q, Advance(it));
    assert Fits(c, Sym(c)) && Moves(a, TopState(s), c, q);
    s2 := s + [Entry(Shift(q), c)];
    PathPush(a, s, q, c);
    assert Becomes(g, a, s1, r, q, s2);
  }

  lemma {:induction false} Vanishing(g: Grammar, a: Automaton, s: seq<Entry>, it: Item, k: nat, n: nat) returns (l: seq<nat>, s': seq<Entry>)
    requires WfGrammar(g) && Lr0(g, a) && Path(a, s) && Has(a, TopState(s), it) && it.rule < |g.rules|
    requires it.dot <= k <= |g.rules[it.rule].rhs|
    requires forall j :: it.dot <= j < k ==> g.rules[it.rule].rhs[j].Sym? && NullableIn(g, g.rules[it.rule].rhs[j].code, n)
    ensures Plays(g, a, s, l, s') && Path(a, s') && Has(a, TopState(s'), Item(it.rule, k))
    ensures |s'| == |s| + k - it.dot && s'[..|s|] == s && (it.dot < k ==> l != [])
    decreases n, k - it.dot
  {
    hide Lr0, Path, MayReduce;
    PathIsThere(a, s);
    if it.dot == k {
      l, s' := [], s;
      assert it == Item(it.rule, k) && s[..|s|] == s;
    } else {
      var c := g.rules[it.rule].rhs[it.dot].code;
      var r: nat :| r < |g.rules| && g.rules[r].lhs == c && RuleVanishes(g, g.rules[r].rhs, n - 1);
      RulesThere(g, a, TopState(s), it, r);
      var l1, s1 := Vanishing(g, a, s, Item(r, 0), |g.rules[r].rhs|, n - 1);
      var s2 := Reducing(g, a, s, it, r, s1);
      PlaysOnce(g, a, s, l1, s1, r, s2);
      var l3, s3 := Vanishing(g, a, s2, Advance(it), k, n);
      PlaysMore(g, a, s, l1 + [r], s2, l3, s3);
      l, s' := l1 + [r] + l3, s3;
      assert s3[..|s|] == s3[..|s2|][..|s|] == s2[..|s|];
    }
  }

  lemma PathIsThere(a: Automaton, s: seq<Entry>)
    requires Path(a, s)
    ensures s != []
  {
  }

  // ----- a nonterminal that comes back hidden

  /** The stack leads to where `c` is asked for. */
  ghost predicate AsksFor(g: Grammar, a: Automaton, s: seq<Entry>, c: nat) {
    Path(a, s) && Asks(g, a, TopState(s), Sym(c))
  }

  lemma LeftRun(g: Grammar, a: Automaton, s: seq<Entry>, r: nat, i: nat, c: nat, d: nat) returns (l: seq<nat>, s': seq<Entry>)
    requires WfGrammar(g) && Lr0(g, a) && AsksFor(g, a, s, c) && LeftAt(g, r, i, c, d)
    ensures Plays(g, a, s, l, s') && AsksFor(g, a, s', d) && (i > 0 ==> l != [])
  {
    hide Path, Plays;
    assert ClosedAt(g, a, TopState(s), r);
    var rhs := g.rules[r].rhs;
    var n := NullableBound(g, rhs[..i]);
    forall j | 0 <= j < i ensures rhs[j].Sym? && NullableIn(g, rhs[j].code, n) {
      assert rhs[j] == rhs[..i][j];
    }
    l, s' := Vanishing(g, a, s, Item(r, 0), i, n);
    assert Shiftable(g, Item(r, i)) && After(g, Item(r, i)) == Sym(d);
  }

  lemma {:induction false} LeftPathRun(g: Grammar, a: Automaton, s: seq<Entry>, c: nat, d: nat, n: nat) returns (l: seq<nat>, s': seq<Entry>)
    requires WfGrammar(g) && Lr0(g, a) && AsksFor(g, a, s, c) && LeftPath(g, c, d, n)
    ensures Plays(g, a, s, l, s') && AsksFor(g, a, s', d)
    decreases n
  {
    hide Lr0, AsksFor, LeftAt;
    if n == 0 {
      l, s' := [], s;
    } else {
      var e :| LeftStep(g, c, e) && LeftPath(g, e, d, n - 1);
      var r: nat, i: nat :| LeftAt(g, r, i, c, e);
      var l1, m := LeftRun(g, a, s, r, i, c, e);
      l, s' := LeftPathRun(g, a, m, e, d, n - 1);
      PlaysMore(g, a, s, l1, m, l, s');
      l := l1 + l;
    }
  }

  lemma {:induction false} HiddenRun(g: Grammar, a: Automaton, s: seq<Entry>, c: nat, d: nat, n: nat) returns (l: seq<nat>, s': seq<Entry>)
    requires WfGrammar(g) && Lr0(g, a) && AsksFor(g, a, s, c) && HiddenPath(g, c, d, n)
    ensures Plays(g, a, s, l, s') && AsksFor(g, a, s', d) && l != []
    decreases n
  {
    hide Lr0, AsksFor, LeftAt, Plays;
    if e :| HiddenStep(g, c, e) && LeftPath(g, e, d, n - 1) {
      var r: nat, i: nat :| LeftAt(g, r, i, c, e) && i > 0;
      var l1, m := LeftRun(g, a, s, r, i, c, e);
      l, s' := LeftPathRun(g, a, m, e, d, n - 1);
      PlaysMore(g, a, s, l1, m, l, s');
      l := l1 + l;
    } else {
      var e :| LeftStep(g, c, e) && HiddenPath(g, e, d, n - 1);
      var r: nat, i: nat :| LeftAt(g, r, i, c, e);
      var l1, m := LeftRun(g, a, s, r, i, c, e);
      l, s' := HiddenRun(g, a, m, e, d, n - 1);
      PlaysMore(g, a, s, l1, m, l, s');
      l := l1 + l;
    }
  }

  // ----- a nonterminal that comes back as all that is left of itself

  /** `c` is on the stack, where it is asked for. */
  ghost predicate HasOnTop(g: Grammar, a: Automaton, u: seq<Entry>, c: nat, s: seq<Entry>) {
    AsksFor(g, a, u, c) && Path(a, s) && |s| == |u| + 1 && s[..|u|] == u && s[|u|].major == c
  }

  lemma UnitRun(g: Grammar, a: Automaton, u: seq<Entry>, r: nat, c: nat, d: nat, s: seq<Entry>) returns (l: seq<nat>, s': seq<Entry>)
    requires WfGrammar(g) && Lr0(g, a) && UnitAt(g, r, c, d) && AsksFor(g, a, u, c) && HasOnTop(g, a, u, d, s) && g.nterminal <= d
    ensures Plays(g, a, s, l, s') && HasOnTop(g, a, u, c, s') && l != []
  {
    hide Lr0, Plays, MayReduce;
    var rhs := g.rules[r].rhs;
    RuleAsked(g, a, TopState(u), r, c);
    DotMoves(g, a, u, Item(r, 0), d, s);
    var n := NullableBound(g, rhs[1..]);
    forall j | 1 <= j < |rhs| ensures rhs[j].Sym? && NullableIn(g, rhs[j].code, n) {
      assert rhs[j] == rhs[1..][j - 1];
    }
    var l1, s1 := Vanishing(g, a, s, Item(r, 1), |rhs|, n);
    assert s1[..|u|] == s1[..|s|][..|u|] == u;
    var it :| Has(a, TopState(u), it) && Shiftable(g, it) && After(g, it) == Sym(c);
    s' := Reducing(g, a, u, it, r, s1);
    PlaysOnce(g, a, s, l1, s1, r, s');
    l := l1 + [r];
  }

  lemma RuleAsked(g: Grammar, a: Automaton, q: nat, r: nat, c: nat)
    requires Lr0(g, a) && Asks(g, a, q, Sym(c)) && r < |g.rules| && g.rules[r].lhs == c
    ensures Has(a, q, Item(r, 0))
  {
    assert ClosedAt(g, a, q, r);
  }

  lemma DotMoves(g: Grammar, a: Automaton, u: seq<Entry>, it: Item, d: nat, s: seq<Entry>)
    requires WfGrammar(g) && Lr0(g, a) && Path(a, u) && Path(a, s) && |s| == |u| + 1 && s[..|u|] == u && s[|u|].major == d
    requires Has(a, TopState(u), it) && Shiftable(g, it) && After(g, it) == Sym(d) && g.nterminal <= d
    ensures Has(a, TopState(s), Advance(it))
  {
    assert ForwardAt(g, a, TopState(u), it);
    var q :| Goes(a, TopState(u), Sym(d), q) && Has(a, q, Advance(it));
    assert Fits(d, Sym(d)) && Moves(a, TopState(u), d, q);
    assert s[..|s| - 1] == u && s[|s| - 1] == s[|u|];
    OneMove(g, a, TopState(u), d, q, TopState(s));
  }

  lemma {:induction false} UnitPathRun(g: Grammar, a: Automaton, u: seq<Entry>, c: nat, d: nat, n: nat, s: seq<Entry>)
    returns (l: seq<nat>, s': seq<Entry>)
    requires WfGrammar(g) && Lr0(g, a) && UnitPath(g, c, d, n) && AsksFor(g, a, u, c) && HasOnTop(g, a, u, d, s) && g.nterminal <= d
    ensures Plays(g, a, s, l, s') && HasOnTop(g, a, u, c, s') && (n > 0 ==> l != [])
    decreases n
  {
    hide Lr0, AsksFor, UnitAt, HasOnTop;
    if n == 0 {
      l, s' := [], s;
    } else {
      var e :| UnitStep(g, c, e) && UnitPath(g, e, d, n - 1);
      var r: nat :| UnitAt(g, r, c, e);
      UnitAsked(g, a, u, r, c, e);
      NoToken(g, e, d, n - 1);
      var l1, m := UnitPathRun(g, a, u, e, d, n - 1, s);
      l, s' := UnitRun(g, a, u, r, c, e, m);
      PlaysMore(g, a, s, l1, m, l, s');
      l := l1 + l;
    }
  }

  lemma UnitAsked(g: Grammar, a: Automaton, u: seq<Entry>, r: nat, c: nat, e: nat)
    requires Lr0(g, a) && AsksFor(g, a, u, c) && UnitAt(g, r, c, e)
    ensures AsksFor(g, a, u, e)
  {
    RuleAsked(g, a, TopState(u), r, c);
    assert Shiftable(g, Item(r, 0)) && After(g, Item(r, 0)) == Sym(e);
  }

  lemma NoToken(g: Grammar, c: nat, d: nat, n: nat)
    requires WfGrammar(g) && UnitPath(g, c, d, n) && g.nterminal <= d
    ensures g.nterminal <= c
  {
    if n > 0 {
      var e :| UnitStep(g, c, e) && UnitPath(g, e, d, n - 1);
      var r: nat :| UnitAt(g, r, c, e);
      assert WfRule(g, g.rules[r]);
    }
  }

  // ----- a stack to begin with

  /** Every MULTITERMINAL stands for some token. */
  predicate ClassesThere(g: Grammar) {
    forall r, x :: r in g.rules && x in r.rhs && x.Class? ==> x.toks != []
  }

  lemma {:induction false} Shifting(g: Grammar, a: Automaton, s: seq<Entry>, it: Item, k: nat) returns (s': seq<Entry>)
    requires Lr0(g, a) && ClassesThere(g) && Path(a, s) && Has(a, TopState(s), it) && it.rule < |g.rules|
    requires it.dot <= k <= |g.rules[it.rule].rhs|
    ensures Path(a, s') && Has(a, TopState(s'), Item(it.rule, k))
    decreases k - it.dot
  {
    if it.dot == k {
      s' := s;
      assert it == Item(it.rule, k);
    } else {
      assert ForwardAt(g, a, TopState(s), it);
      var x := After(g, it);
      var q :| Goes(a, TopState(s), x, q) && Has(a, q, Advance(it));
      assert g.rules[it.rule] in g.rules && x in g.rules[it.rule].rhs;
      var c := if x.Sym? then x.code else x.toks[0];
      assert Moves(a, TopState(s), c, q) && TightAt(g, a, TopState(s), x, q);
      PathPush(a, s, q, c);
      s' := Shifting(g, a, s + [Entry(Shift(q), c)], Advance(it), k);
    }
  }

  lemma {:induction false} SomeStack(g: Grammar, a: Automaton, c: nat, n: nat) returns (s: seq<Entry>)
    requires WfGrammar(g) && Lr0(g, a) && ClassesThere(g) && ReachIn(g, c, n) && c != g.start
    ensures AsksFor(g, a, s, c)
    decreases n
  {
    hide Lr0, ClassesThere;
    var r: nat :| OccursIn(g, r, c) && ReachIn(g, g.rules[r].lhs, n - 1);
    if g.rules[r].lhs == g.start {
      s := [Bottom];
      BottomAsks(g, a, r);
    } else {
      s := SomeStack(g, a, g.rules[r].lhs, n - 1);
      RuleAsked(g, a, TopState(s), r, g.rules[r].lhs);
    }
    var i :| 0 <= i < |g.rules[r].rhs| && g.rules[r].rhs[i] == Sym(c);
    s := Shifting(g, a, s, Item(r, 0), i);
    assert Shiftable(g, Item(r, i)) && After(g, Item(r, i)) == Sym(c);
  }

  lemma BottomAsks(g: Grammar, a: Automaton, r: nat)
    requires Lr0(g, a) && r < |g.rules| && g.rules[r].lhs == g.start
    ensures Path(a, [Bottom]) && Has(a, TopState([Bottom]), Item(r, 0))
  {
    assert ClosedAt(g, a, 0, r);
  }

  // ----- for ever

  /** The stack is where `c` comes back from. */
  ghost predicate Ready(g: Grammar, a: Automaton, c: nat, s: seq<Entry>) {
    || (HiddenLeft(g, c, c) && AsksFor(g, a, s, c))
    || (UnitReach(g, c, c) && g.nterminal <= c && exists u :: HasOnTop(g, a, u, c, s))
  }

  ghost predicate Continues(g: Grammar, a: Automaton, c: nat, s: seq<Entry>, l: seq<nat>, s': seq<Entry>) {
    l != [] && Plays(g, a, s, l, s') && Ready(g, a, c, s')
  }

  lemma GoesOn(g: Grammar, a: Automaton, c: nat, s: seq<Entry>)
    requires WfGrammar(g) && Lr0(g, a) && Ready(g, a, c, s)
    ensures exists l, s' :: Continues(g, a, c, s, l, s')
  {
    hide Lr0, AsksFor, HasOnTop, Plays, HiddenPath, UnitPath;
    if HiddenLeft(g, c, c) && AsksFor(g, a, s, c) {
      var n: nat :| HiddenPath(g, c, c, n);
      var l, s' := HiddenRun(g, a, s, c, c, n);
      assert Continues(g, a, c, s, l, s');
    } else {
      var n: nat :| n > 0 && UnitPath(g, c, c, n);
      var u :| HasOnTop(g, a, u, c, s);
      AskedUnder(g, a, u, c, s);
      var l, s' := UnitPathRun(g, a, u, c, c, n, s);
      assert Continues(g, a, c, s, l, s');
    }
  }

  lemma AskedUnder(g: Grammar, a: Automaton, u: seq<Entry>, c: nat, s: seq<Entry>)
    requires HasOnTop(g, a, u, c, s)
    ensures AsksFor(g, a, u, c)
  {
  }

  ghost predicate Suitable(g: Grammar, a: Automaton) {
    WfGrammar(g) && Lr0(g, a)
  }

  /** What is played next, and where it leads. */
  ghost function Next(g: Grammar, a: Automaton, c: nat, s: seq<Entry>): (x: (seq<nat>, seq<Entry>))
    requires Suitable(g, a) && Ready(g, a, c, s)
    ensures Continues(g, a, c, s, x.0, x.1)
  {
    GoesOn(g, a, c, s);
    var l, s' :| Continues(g, a, c, s, l, s');
    (l, s')
  }

  /** The rule of the reduce number `i`, from `s` on. */
  ghost function Plan(g: Grammar, a: Automaton, c: nat, s: seq<Entry>, i: nat): nat
    requires Suitable(g, a) && Ready(g, a, c, s)
    decreases i
  {
    var (l, s') := Next(g, a, c, s);
    if i < |l| then l[i] else Plan(g, a, c, s', i - |l|)
  }

  /** Where the choice has the rules of `l`, it plays them. */
  lemma {:induction false} ChoicePlays(g: Grammar, a: Automaton, ch: nat -> nat, i: nat, s: seq<Entry>, l: seq<nat>, s': seq<Entry>)
    requires Plays(g, a, s, l, s') && forall k: nat :: k < |l| ==> ch(i + k) == l[k]
    ensures Steps(g, a, ch, i, s, s', |l|)
    decreases |l|
  {
    hide MayReduce;
    if l != [] {
      var m :| MayReduce(g, a, s, l[0], m) && Plays(g, a, m, l[1..], s');
      assert ch(i + 0) == l[0];
      forall k: nat | k < |l[1..]| ensures ch(i + 1 + k) == l[1..][k] {
        assert ch(i + (k + 1)) == l[k + 1];
      }
      ChoicePlays(g, a, ch, i + 1, m, l[1..], s');
    }
  }

  /** Inside a sequence of reduces the choice does not stop. */
  lemma {:induction false} StepsInside(g: Grammar, a: Automaton, ch: nat -> nat, i: nat, s: seq<Entry>, s': seq<Entry>, n: nat,
                                       t: seq<Entry>, k: nat)
    requires Suitable(g, a) && Steps(g, a, ch, i, s, s', n) && k < n
    ensures !StopsAt(g, a, ch, i, s, t, k)
    decreases k
  {
    hide MayReduce, Lr0;
    var m :| MayReduce(g, a, s, ch(i), m) && Steps(g, a, ch, i + 1, m, s', n - 1);
    if k > 0 && StopsAt(g, a, ch, i, s, t, k) {
      var m' :| MayReduce(g, a, s, ch(i), m') && Steps(g, a, ch, i + 1, m', t, k - 1);
      OneResult(g, a, s, ch(i), m, m');
      assert i + 1 + (k - 1) == i + k;
      StepsInside(g, a, ch, i + 1, m, s', n - 1, t, k - 1);
    }
  }

  lemma {:induction false} StepsBehind(g: Grammar, a: Automaton, ch: nat -> nat, i: nat, s: seq<Entry>, s': seq<Entry>, n: nat,
                                       t: seq<Entry>, k: nat)
    requires Suitable(g, a) && Steps(g, a, ch, i, s, s', n) && n <= k && !StopsAt(g, a, ch, i + n, s', t, k - n)
    ensures !StopsAt(g, a, ch, i, s, t, k)
    decreases n
  {
    hide MayReduce, Lr0;
    if n > 0 && StopsAt(g, a, ch, i, s, t, k) {
      var m :| MayReduce(g, a, s, ch(i), m) && Steps(g, a, ch, i + 1, m, s', n - 1);
      var m' :| MayReduce(g, a, s, ch(i), m') && Steps(g, a, ch, i + 1, m', t, k - 1);
      OneResult(g, a, s, ch(i), m, m');
      assert i + 1 + (n - 1) == i + n && i + 1 + (k - 1) == i + k && k - 1 - (n - 1) == k - n;
      StepsBehind(g, a, ch, i + 1, m, s', n - 1, t, k - 1);
    }
  }

  /** Following the plan there is always a rule to reduce by. */
  lemma {:induction false} NeverStops(g: Grammar, a: Automaton, c: nat, ch: nat -> nat, i: nat, s: seq<Entry>, t: seq<Entry>, n: nat)
    requires Suitable(g, a) && Ready(g, a, c, s) && forall k: nat :: ch(i + k) == Plan(g, a, c, s, k)
    ensures !StopsAt(g, a, ch, i, s, t, n)
    decreases n
  {
    hide Suitable, Ready, Plays;
    var (l, s') := Next(g, a, c, s);
    forall k: nat | k < |l| ensures ch(i + k) == l[k] {
      assert ch(i + k) == Plan(g, a, c, s, k);
    }
    ChoicePlays(g, a, ch, i, s, l, s');
    if n < |l| {
      StepsInside(g, a, ch, i, s, s', |l|, t, n);
    } else {
      forall k: nat ensures ch(i + |l| + k) == Plan(g, a, c, s', k) {
        assert ch(i + (|l| + k)) == Plan(g, a, c, s, |l| + k);
      }
      NeverStops(g, a, c, ch, i + |l|, s', t, n - |l|);
      StepsBehind(g, a, ch, i, s, s', |l|, t, n);
    }
  }

  lemma ReadyPath(g: Grammar, a: Automaton, c: nat, s: seq<Entry>)
    requires Ready(g, a, c, s)
    ensures Path(a, s)
  {
  }

  lemma SomethingEndless(g: Grammar, a: Automaton, c: nat, s: seq<Entry>)
    requires Suitable(g, a) && Ready(g, a, c, s)
    ensures Path(a, s) && exists ch :: !Stops(g, a, ch, 0, s)
  {
    hide Suitable, Ready, StopsAt, Plan;
    ReadyPath(g, a, c, s);
    var ch := (i: nat) => Plan(g, a, c, s, i);
    forall t, n: nat ensures !StopsAt(g, a, ch, 0, s, t, n) {
      NeverStops(g, a, c, ch, 0, s, t, n);
    }
    assert !Stops(g, a, ch, 0, s);
  }

  // ----- exactly then

  lemma {:induction false} HiddenOccurs(g: Grammar, c: nat, d: nat, n: nat) returns (r: nat)
    requires HiddenPath(g, c, d, n)
    ensures OccursIn(g, r, d)
    decreases n
  {
    if e :| HiddenStep(g, c, e) && LeftPath(g, e, d, n - 1) {
      if n == 1 {
        var i: nat;
        r, i :| LeftAt(g, r, i, c, e) && i > 0;
      } else {
        r := LeftOccurs(g, e, d, n - 1);
      }
    } else {
      var e :| LeftStep(g, c, e) && HiddenPath(g, e, d, n - 1);
      r := HiddenOccurs(g, e, d, n - 1);
    }
  }

  lemma {:induction false} LeftOccurs(g: Grammar, c: nat, d: nat, n: nat) returns (r: nat)
    requires LeftPath(g, c, d, n) && n > 0
    ensures OccursIn(g, r, d)
    decreases n
  {
    var e :| LeftStep(g, c, e) && LeftPath(g, e, d, n - 1);
    if n == 1 {
      var i: nat;
      r, i :| LeftAt(g, r, i, c, e);
    } else {
      r := LeftOccurs(g, e, d, n - 1);
    }
  }

  lemma {:induction false} UnitOccurs(g: Grammar, c: nat, d: nat, n: nat) returns (r: nat)
    requires UnitPath(g, c, d, n) && n > 0
    ensures OccursIn(g, r, d)
    decreases n
  {
    var e :| UnitStep(g, c, e) && UnitPath(g, e, d, n - 1);
    if n == 1 {
      r :| UnitAt(g, r, c, e);
    } else {
      r := UnitOccurs(g, e, d, n - 1);
    }
  }

  /** What comes back is not the start symbol. */
  lemma NotStart(g: Grammar, c: nat)
    requires StartIsFresh(g) && (HiddenLeft(g, c, c) || UnitReach(g, c, c))
    ensures c != g.start
  {
    var r: nat;
    if HiddenLeft(g, c, c) {
      var n: nat :| HiddenPath(g, c, c, n);
      r := HiddenOccurs(g, c, c, n);
    } else {
      var n: nat :| n > 0 && UnitPath(g, c, c, n);
      r := UnitOccurs(g, c, c, n);
    }
    assert g.rules[r] in g.rules;
  }

  /** From `s` every choice stops. */
  ghost predicate AllStop(g: Grammar, a: Automaton, s: seq<Entry>) {
    forall ch :: Stops(g, a, ch, 0, s)
  }

  /** A nonterminal in use that comes back can be made to do so for ever. */
  lemma ComesBackForEver(g: Grammar, a: Automaton, c: nat)
    requires WfGrammar(g) && StartIsFresh(g) && Lr0(g, a) && ClassesThere(g) && Reachable(g, c)
    requires HiddenLeft(g, c, c) || UnitReach(g, c, c)
    ensures exists s :: Path(a, s) && !AllStop(g, a, s)
  {
    hide Lr0, HiddenLeft, UnitReach;
    NotStart(g, c);
    var n: nat :| ReachIn(g, c, n);
    var s := SomeStack(g, a, c, n);
    if HiddenLeft(g, c, c) {
      SomethingEndless(g, a, c, s);
    } else {
      HasRule(g, c);
      var u := s;
      s := OntoIt(g, a, u, c);
      SomethingEndless(g, a, c, s);
    }
  }

  lemma HasRule(g: Grammar, c: nat)
    requires WfGrammar(g) && UnitReach(g, c, c)
    ensures g.nterminal <= c
  {
    var n: nat :| n > 0 && UnitPath(g, c, c, n);
    var e :| UnitStep(g, c, e) && UnitPath(g, e, c, n - 1);
    var r: nat :| UnitAt(g, r, c, e);
    assert WfRule(g, g.rules[r]);
  }

  lemma OntoIt(g: Grammar, a: Automaton, u: seq<Entry>, c: nat) returns (s: seq<Entry>)
    requires Lr0(g, a) && AsksFor(g, a, u, c)
    ensures HasOnTop(g, a, u, c, s)
  {
    var it :| Has(a, TopState(u), it) && Shiftable(g, it) && After(g, it) == Sym(c);
    assert ForwardAt(g, a, TopState(u), it);
    var q :| Goes(a, TopState(u), Sym(c), q) && Has(a, q, Advance(it));
    assert Fits(c, Sym(c)) && Moves(a, TopState(u), c, q) && TightAt(g, a, TopState(u), Sym(c), q);
    PathPush(a, u, q, c);
    s := u + [Entry(Shift(q), c)];
  }

  /** Whatever is chosen, the reduces come to an end from every stack, if and only if nothing in use comes back. */
  lemma LooplessIff(g: Grammar, a: Automaton)
    requires WfGrammar(g) && StartIsFresh(g) && Lr0(g, a) && LeastItems(g, a) && ClassesThere(g)
    ensures Loopless(g) <==> forall s :: Path(a, s) ==> AllStop(g, a, s)
  {
    hide Lr0, LeastItems, Path, HiddenLeft, UnitReach, Reachable, Stops;
    if Loopless(g) {
      forall s, ch | Path(a, s) ensures Stops(g, a, ch, 0, s) {
        EveryChoiceStops(g, a, ch, 0, s);
      }
    } else {
      var c :| Reachable(g, c) && !(!HiddenLeft(g, c, c) && !UnitReach(g, c, c));
      ComesBackForEver(g, a, c);
    }
  }
}
