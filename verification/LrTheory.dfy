/** Why the driver, on a table that fits its automaton, accepts exactly the language. */
module LrTheory {
  // Everything here is about the tables that the later phases of lemon produce; module `Generator` shows that it does
  // produce tables of this kind.

  import opened Grammars
  import opened FirstSets
  import opened Driver

  /** The LR(0) automaton: the configurations of each state, and its shifts. */
  datatype Automaton = Automaton(items: seq<set<Item>>, goto: seq<map<Symbol, nat>>)

  predicate Shiftable(g: Grammar, it: Item) {
    it.rule < |g.rules| && it.dot < |g.rules[it.rule].rhs|
  }

  function After(g: Grammar, it: Item): Symbol
    requires Shiftable(g, it)
  {
    g.rules[it.rule].rhs[it.dot]
  }

  function Advance(it: Item): Item {
    it.(dot := it.dot + 1)
  }

  predicate WfItem(g: Grammar, it: Item) {
    it.rule < |g.rules| && it.dot <= |g.rules[it.rule].rhs|
  }

  function Final(g: Grammar, r: nat): Item
    requires r < |g.rules|
  {
    Item(r, |g.rules[r].rhs|)
  }

  /** Configuration `it` is in state `q`. */
  ghost predicate Has(a: Automaton, q: nat, it: Item) {
    q < |a.items| && it in a.items[q]
  }

  /** State `q` shifts symbol `x` to state `q'`. */
  ghost predicate Goes(a: Automaton, q: nat, x: Symbol, q': nat) {
    q < |a.goto| && x in a.goto[q] && a.goto[q][x] == q'
  }

  /** Some configuration of state `q` has `x` after its dot. */
  ghost predicate Asks(g: Grammar, a: Automaton, q: nat, x: Symbol) {
    exists it :: Has(a, q, it) && Shiftable(g, it) && After(g, it) == x
  }

  ghost predicate WfAt(g: Grammar, a: Automaton, q: nat, it: Item) {
    Has(a, q, it) ==> WfItem(g, it) && (q == 0 ==> it.dot == 0)
  }

  /** A shift leads to a state, and some configuration asks for it. */
  ghost predicate TightAt(g: Grammar, a: Automaton, q: nat, x: Symbol, q': nat) {
    Goes(a, q, x, q') ==> q' < |a.items| && Asks(g, a, q, x)
  }

  /** An undotted configuration is there because another asks for it, or as a start rule of state 0. */
  ghost predicate GroundedAt(g: Grammar, a: Automaton, q: nat, r: nat) {
    r < |g.rules| && Has(a, q, Item(r, 0)) ==>
      var c := g.rules[r].lhs; (q == 0 && c == g.start) || Asks(g, a, q, Sym(c))
  }

  /** A configuration with something before its dot was advanced over the symbol that leads here. */
  ghost predicate BackedAt(g: Grammar, a: Automaton, q: nat, x: Symbol, q': nat, it: Item) {
    Goes(a, q, x, q') && Has(a, q', it) && it.dot > 0 ==>
      var prev := Item(it.rule, it.dot - 1);
      Has(a, q, prev) && Shiftable(g, prev) && After(g, prev) == x
  }

  /** Every configuration that can be shifted is shifted. */
  ghost predicate ForwardAt(g: Grammar, a: Automaton, q: nat, it: Item) {
    Has(a, q, it) && Shiftable(g, it) ==>
      exists q' :: Goes(a, q, After(g, it), q') && Has(a, q', Advance(it))
  }

  /** States are closed: a nonterminal asked for has all its rules there. */
  ghost predicate ClosedAt(g: Grammar, a: Automaton, q: nat, r: nat) {
    r < |g.rules| ==>
      ((q == 0 && g.rules[r].lhs == g.start) || Asks(g, a, q, Sym(g.rules[r].lhs)) ==> Has(a, q, Item(r, 0)))
  }

  /** `a` is the LR(0) automaton of `g`. */
  ghost predicate Lr0(g: Grammar, a: Automaton) {
    && |a.items| == |a.goto| > 0
    && (forall q, it :: WfAt(g, a, q, it))
    && (forall q, x, q' :: TightAt(g, a, q, x, q'))
    && (forall q, r :: GroundedAt(g, a, q, r))
    && (forall q, x, q', it :: BackedAt(g, a, q, x, q', it))
    && (forall q, it :: ForwardAt(g, a, q, it))
    && (forall q, r :: ClosedAt(g, a, q, r))
  }

  /** What a state starts from: configurations with something before the dot, and in state 0 the start rules. */
  predicate Kernel(g: Grammar, q: nat, it: Item) {
    it.dot > 0 || (q == 0 && it.rule < |g.rules| && g.rules[it.rule].lhs == g.start)
  }

  /** Configuration `it` asks for the left-hand side of rule `r`. */
  predicate CallsRule(g: Grammar, it: Item, r: nat) {
    Shiftable(g, it) && r < |g.rules| && After(g, it) == Sym(g.rules[r].lhs)
  }

  ghost predicate LeastItemsAt(g: Grammar, a: Automaton, q: nat, s: set<Item>) {
    && q < |a.items|
    && (forall it :: Has(a, q, it) && Kernel(g, q, it) ==> it in s)
    && (forall it, r: nat :: it in s && Has(a, q, it) && CallsRule(g, it, r) ==> Item(r, 0) in s)
    ==> a.items[q] <= s
  }

  /** No state has more configurations than its kernel calls for. */
  ghost predicate LeastItems(g: Grammar, a: Automaton) {
    forall q, s :: LeastItemsAt(g, a, q, s)
  }

  /** Every state but the first is shifted to from an earlier one. */
  ghost predicate AllReached(a: Automaton) {
    forall q: nat :: 0 < q < |a.items| ==> ReachedAt(a, q)
  }

  ghost predicate ReachedAt(a: Automaton, q: nat) {
    exists q0: nat, x :: q0 < q && Goes(a, q0, x, q)
  }

  /** The automaton moves from q to q' over a symbol that `c` fits. */
  ghost predicate Moves(a: Automaton, q: nat, c: nat, q': nat) {
    exists x :: Goes(a, q, x, q') && Fits(c, x)
  }

  // ----- tables

  ghost predicate SoundAct(g: Grammar, a: Automaton, q: nat, c: nat, act: Act) {
    match act
    case Shift(q') => c > 0 && Moves(a, q, c, q')
    case Reduce(r) => r < |g.rules| && Has(a, q, Final(g, r)) && (g.rules[r].lhs == g.start ==> c == 0)
    case Error => true
    case _ => false
  }

  ghost predicate SoundAt(g: Grammar, a: Automaton, tb: Table, q: nat, c: nat) {
    q < |a.items| && c < g.nterminal ==> SoundAct(g, a, q, c, Lookup(tb, q, c))
  }

  ghost predicate GotoAt(g: Grammar, a: Automaton, tb: Table, q: nat, c: nat, q': nat) {
    Goes(a, q, Sym(c), q') && g.nterminal <= c ==> Lookup(tb, q, c) == Shift(q')
  }

  /** Whatever the table does on a token, the automaton allows it; on a nonterminal it does just
      what the automaton does, and accepts on the start symbol in state 0. */
  ghost predicate SoundTable(g: Grammar, a: Automaton, tb: Table) {
    && Lookup(tb, 0, g.start) == Accept
    && (forall q, c, q' :: GotoAt(g, a, tb, q, c, q'))
    && (forall q, c :: SoundAt(g, a, tb, q, c))
  }

  // ----- soundness

  function Majors(stack: seq<Entry>): (s: seq<nat>)
    ensures |s| == |stack|
  {
    seq(|stack|, i requires 0 <= i < |stack| => stack[i].major)
  }

  /** The symbols on the stack above the bottom entry. */
  function Symbols(stack: seq<Entry>): seq<nat> {
    if stack == [] then [] else Majors(stack[1..])
  }

  function TopState(stack: seq<Entry>): nat {
    if stack != [] && stack[|stack| - 1].act.Shift? then stack[|stack| - 1].act.state else 0
  }

  /** The stack is a path through the automaton from state 0. */
  ghost predicate Path(a: Automaton, stack: seq<Entry>)
    decreases |stack|
  {
    && stack != []
    && var n, top := |stack| - 1, stack[|stack| - 1];
    && top.act.Shift? && top.act.state < |a.items|
    && if n == 0 then top == Bottom
       else Path(a, stack[..n]) && Moves(a, TopState(stack[..n]), top.major, top.act.state)
  }

  ghost predicate LoopInv(g: Grammar, a: Automaton, p: Parser, tok: nat) {
    && (Path(a, p.stack) || (tok == 0 && p.stack == [Bottom, Entry(Accept, g.start)]))
    && RightmostBy(g, Symbols(p.stack), p.trail, p.shifted)
    && AllTokens(g, p.shifted)
  }

  lemma {:induction false} PathPrefix(a: Automaton, stack: seq<Entry>, n: nat)
    requires Path(a, stack) && 0 < n <= |stack|
    ensures Path(a, stack[..n])
    decreases |stack|
  {
    if n < |stack| {
      PathPrefix(a, stack[..|stack| - 1], n);
      assert stack[..|stack| - 1][..n] == stack[..n];
    } else {
      assert stack[..n] == stack;
    }
  }

  lemma StepBack(g: Grammar, a: Automaton, q: nat, c: nat, q': nat, it: Item)
    requires Lr0(g, a) && Moves(a, q, c, q') && Has(a, q', it) && it.dot > 0
    ensures var prev := Item(it.rule, it.dot - 1); Has(a, q, prev) && Shiftable(g, prev) && Fits(c, After(g, prev))
  {
    var x :| Goes(a, q, x, q') && Fits(c, x);
    assert BackedAt(g, a, q, x, q', it);
  }

  lemma SpellsExtend(w: seq<nat>, xs: seq<Symbol>, k: nat, c: nat)
    requires k < |xs| && Spells(w, xs[..k]) && Fits(c, xs[k])
    ensures Spells(w + [c], xs[..k + 1])
  {
    assert xs[..k + 1] == xs[..k] + [xs[k]];
  }

  lemma MajorsConcat(s: seq<Entry>, t: seq<Entry>)
    ensures Majors(s + t) == Majors(s) + Majors(t)
  {
  }

  /** A configuration of the top state has its matched part on top of the stack, and the state
      below that part has the same configuration with nothing matched yet. */
  lemma {:induction false} Handle(g: Grammar, a: Automaton, stack: seq<Entry>, it: Item)
    requires Lr0(g, a) && Path(a, stack) && Has(a, TopState(stack), it)
    ensures WfItem(g, it) && it.dot < |stack|
    ensures Has(a, TopState(stack[..|stack| - it.dot]), Item(it.rule, 0))
    ensures Spells(Majors(stack[|stack| - it.dot..]), g.rules[it.rule].rhs[..it.dot])
    decreases it.dot
  {
    var n := |stack|;
    assert WfAt(g, a, TopState(stack), it);
    if it.dot == 0 {
      assert stack[..n] == stack;
    } else {
      var below, prev := stack[..n - 1], Item(it.rule, it.dot - 1);
      assert n > 1;
      StepBack(g, a, TopState(below), stack[n - 1].major, TopState(stack), it);
      Handle(g, a, below, prev);
      assert below[..n - 1 - prev.dot] == stack[..n - it.dot];
      var top := below[n - it.dot..];
      SpellsExtend(Majors(top), g.rules[it.rule].rhs, prev.dot, stack[n - 1].major);
      MajorsConcat(top, [stack[n - 1]]);
      assert stack[n - it.dot..] == top + [stack[n - 1]];
    }
  }

  lemma PathPush(a: Automaton, stack: seq<Entry>, q': nat, c: nat)
    requires Path(a, stack) && Moves(a, TopState(stack), c, q') && q' < |a.items|
    ensures Path(a, stack + [Entry(Shift(q'), c)])
    ensures Symbols(stack + [Entry(Shift(q'), c)]) == Symbols(stack) + [c]
  {
    var s' := stack + [Entry(Shift(q'), c)];
    assert s'[..|stack|] == stack;
    assert s'[1..] == stack[1..] + [Entry(Shift(q'), c)];
  }

  /** The goto after a reduce is always defined: it is a move of the automaton, or the accept
      action when the rule's left-hand side is the start symbol. */
  lemma GotoDefined(g: Grammar, a: Automaton, tb: Table, q: nat, r: nat)
    requires WfGrammar(g) && StartIsFresh(g) && Lr0(g, a) && SoundTable(g, a, tb)
    requires r < |g.rules| && Has(a, q, Item(r, 0))
    ensures var c := g.rules[r].lhs; var act := Lookup(tb, q, c);
      if c == g.start then q == 0 && act == Accept
      else act.Shift? && act.state < |a.items| && Moves(a, q, c, act.state)
  {
    var c := g.rules[r].lhs;
    assert WfRule(g, g.rules[r]);
    assert GroundedAt(g, a, q, r);
    if Asks(g, a, q, Sym(c)) {
      var it :| Has(a, q, it) && Shiftable(g, it) && After(g, it) == Sym(c);
      assert g.rules[it.rule] in g.rules && Sym(c) in g.rules[it.rule].rhs;
      assert ForwardAt(g, a, q, it);
      var q' :| Goes(a, q, Sym(c), q') && Has(a, q', Advance(it));
      assert Fits(c, Sym(c)) && GotoAt(g, a, tb, q, c, q') && TightAt(g, a, q, Sym(c), q');
    }
  }

  lemma NoWayBack(g: Grammar, a: Automaton, q: nat, c: nat, q': nat)
    requires Lr0(g, a) && Moves(a, q, c, q')
    ensures q' != 0
  {
    var x :| Goes(a, q, x, q') && Fits(c, x);
    assert TightAt(g, a, q, x, q');
    var it :| Has(a, q, it) && Shiftable(g, it) && After(g, it) == x;
    assert ForwardAt(g, a, q, it);
    assert WfAt(g, a, q', Advance(it));
  }

  lemma StateZeroIsBottom(g: Grammar, a: Automaton, stack: seq<Entry>)
    requires Lr0(g, a) && Path(a, stack) && TopState(stack) == 0
    ensures stack == [Bottom]
  {
    var n := |stack| - 1;
    if n > 0 {
      NoWayBack(g, a, TopState(stack[..n]), stack[n].major, 0);
      assert false;
    }
  }

  /** A reduce undoes one rightmost rewriting step. */
  lemma ReduceRewrites(g: Grammar, under: seq<nat>, handle: seq<nat>, r: nat, rs: seq<nat>, w: seq<nat>)
    requires r < |g.rules| && Spells(handle, g.rules[r].rhs) && RightmostBy(g, under + handle, rs, w)
    ensures RightmostBy(g, under + [g.rules[r].lhs], [r] + rs, w)
  {
    var u, v, i := under + [g.rules[r].lhs], under + handle, |under|;
    assert v[i..i + |handle|] == handle;
    assert v[..i] == under == u[..i];
    assert v[i + |handle|..] == [] == u[i + 1..];
    assert RightmostStep(g, u, v, i, r);
    assert ([r] + rs)[0] == r && ([r] + rs)[1..] == rs;
  }

  lemma SymbolsSplit(stack: seq<Entry>, k: nat)
    requires k < |stack|
    ensures Symbols(stack) == Symbols(stack[..|stack| - k]) + Majors(stack[|stack| - k..])
  {
    var under, top := stack[..|stack| - k], stack[|stack| - k..];
    assert stack[1..] == under[1..] + top;
    MajorsConcat(under[1..], top);
  }

  /** The handle of rule `r` is on top of the stack, and popping it uncovers a state with a goto. */
  lemma ReduceStack(g: Grammar, a: Automaton, tb: Table, stack: seq<Entry>, r: nat)
    requires WfGrammar(g) && StartIsFresh(g) && Lr0(g, a) && SoundTable(g, a, tb)
    requires Path(a, stack) && r < |g.rules| && Has(a, TopState(stack), Final(g, r))
    ensures var k, c := |g.rules[r].rhs|, g.rules[r].lhs;
      && k < |stack|
      && Spells(Majors(stack[|stack| - k..]), g.rules[r].rhs)
      && var under := stack[..|stack| - k];
      && Path(a, under)
      && var act := Lookup(tb, TopState(under), c);
      && var s' := under + [Entry(act, c)];
      && Symbols(s') == Symbols(under) + [c]
      && if c == g.start then s' == [Bottom, Entry(Accept, c)] else act.Shift? && Path(a, s')
  {
    var k, c := |g.rules[r].rhs|, g.rules[r].lhs;
    Handle(g, a, stack, Final(g, r));
    assert g.rules[r].rhs[..k] == g.rules[r].rhs;
    var under := stack[..|stack| - k];
    PathPrefix(a, stack, |stack| - k);
    GotoDefined(g, a, tb, TopState(under), r);
    var act := Lookup(tb, TopState(under), c);
    if c == g.start {
      StateZeroIsBottom(g, a, under);
      assert under + [Entry(act, c)] == [Bottom, Entry(Accept, c)];
      assert Symbols([Bottom, Entry(Accept, c)]) == [c];
    } else {
      PathPush(a, under, act.state, c);
    }
  }

  lemma ReduceSound(g: Grammar, a: Automaton, tb: Table, p: Parser, tok: nat, r: nat)
    requires WfGrammar(g) && StartIsFresh(g) && Lr0(g, a) && SoundTable(g, a, tb)
    requires LoopInv(g, a, p, tok) && Path(a, p.stack)
    requires r < |g.rules| && Has(a, TopState(p.stack), Final(g, r))
    requires g.rules[r].lhs == g.start ==> tok == 0
    ensures var o := ReduceStep(g, tb, p, r);
      o.Again? && LoopInv(g, a, o.p, tok) && o.p.shifted == p.shifted && o.p.errors == p.errors
  {
    hide RightmostBy, Path, Majors, SoundTable;
    var k, c := |g.rules[r].rhs|, g.rules[r].lhs;
    ReduceStack(g, a, tb, p.stack, r);
    var under, top := p.stack[..|p.stack| - k], p.stack[|p.stack| - k..];
    SymbolsSplit(p.stack, k);
    ReduceRewrites(g, Symbols(under), Majors(top), r, p.trail, p.shifted);
    assert TopState(under) == under[|under| - 1].act.state;
    var s' := under + [Entry(Lookup(tb, TopState(under), c), c)];
    assert ReduceStep(g, tb, p, r) == Again(p.(stack := s', trail := [r] + p.trail));
  }

  lemma ShiftSound(g: Grammar, a: Automaton, p: Parser, tok: nat, q': nat)
    requires Lr0(g, a) && LoopInv(g, a, p, tok) && Path(a, p.stack)
    requires IsToken(g, tok) && Moves(a, TopState(p.stack), tok, q')
    ensures var p' := p.(stack := p.stack + [Entry(Shift(q'), tok)], shifted := p.shifted + [tok]);
      Path(a, p'.stack) && LoopInv(g, a, p', tok)
  {
    var q := TopState(p.stack);
    var x :| Goes(a, q, x, q') && Fits(tok, x);
    assert TightAt(g, a, q, x, q');
    PathPush(a, p.stack, q', tok);
    RightmostAppend(g, Symbols(p.stack), p.trail, p.shifted, tok);
  }

  /** What one pass through the loop may lead to: no assertion of the driver fails, the stack stays
      a path whose symbols derive the shifted tokens, a token is shifted or counted as an error, and
      accepting happens at end of input with nothing but the start symbol on the stack. */
  ghost predicate StepOk(g: Grammar, a: Automaton, p: Parser, tok: nat, o: Outcome)
  {
    match o
    case Again(p') => LoopInv(g, a, p', tok) && p'.shifted == p.shifted && p'.errors == p.errors
    case Consumed(p') =>
      && tok > 0 && Path(a, p'.stack) && LoopInv(g, a, p', tok)
      && if p'.errors == p.errors then p'.shifted == p.shifted + [tok]
         else p' == p.(errors := p.errors + 1)
    case Accepted(p') =>
      && tok == 0 && p' == p.(stack := [Bottom])
      && RightmostBy(g, [g.start], p.trail, p.shifted) && AllTokens(g, p.shifted)
    case Failed(p') => tok == 0 && p' == p.(stack := [Bottom], errors := p.errors + 1)
    case Stuck => false
  }

  lemma StepSound(g: Grammar, a: Automaton, tb: Table, p: Parser, tok: nat)
    requires WfGrammar(g) && StartIsFresh(g) && Lr0(g, a) && SoundTable(g, a, tb)
    requires LoopInv(g, a, p, tok) && tok < g.nterminal
    ensures StepOk(g, a, p, tok, LoopStep(g, tb, p, tok))
  {
    if Path(a, p.stack) {
      var q := TopState(p.stack);
      assert SoundAt(g, a, tb, q, tok);
      assert NextAct(tb, p.stack, tok) == Lookup(tb, q, tok);
      match Lookup(tb, q, tok)
      case Shift(q') => ShiftSound(g, a, p, tok, q');
      case Reduce(r) => ReduceSound(g, a, tb, p, tok, r);
      case Error =>
    } else {
      assert p.stack[..1] == [Bottom];
      assert Symbols(p.stack) == [g.start];
    }
  }

  /** Along any run: what has been shifted and what is left make up the input, unless tokens were
      discarded; and the stack always derives what was shifted. */
  ghost predicate RunInv(g: Grammar, a: Automaton, w: seq<nat>, c: Config)
  {
    match c
    case Running(p, rest) =>
      && LoopInv(g, a, p, Ahead(rest)) && AllTokens(g, rest)
      && (p.errors == 0 ==> p.shifted + rest == w)
    case Halted(Accepted(p)) =>
      && RightmostBy(g, [g.start], p.trail, p.shifted) && AllTokens(g, p.shifted)
      && p.stack == [Bottom] && (p.errors == 0 ==> p.shifted == w)
    case Halted(Failed(p)) => p.errors > 0
    case Halted(_) => false
  }

  lemma StreamStepSound(g: Grammar, a: Automaton, tb: Table, w: seq<nat>, c: Config)
    requires WfGrammar(g) && StartIsFresh(g) && Lr0(g, a) && SoundTable(g, a, tb)
    requires RunInv(g, a, w, c)
    ensures RunInv(g, a, w, StreamStep(g, tb, c))
  {
    hide LoopStep, RightmostBy, Path, Symbols, Lr0, SoundTable, StartIsFresh;
    if c.Running? {
      StepSound(g, a, tb, c.p, Ahead(c.rest));
      var o := LoopStep(g, tb, c.p, Ahead(c.rest));
      if o.Consumed? && o.p.errors == c.p.errors {
        assert c.p.shifted + [c.rest[0]] + c.rest[1..] == c.p.shifted + c.rest;
      }
      if o.Accepted? {
        assert c.p.shifted + c.rest == c.p.shifted;
      }
    }
  }

  lemma {:induction false} RunSound(g: Grammar, a: Automaton, tb: Table, w: seq<nat>, c: Config, n: nat)
    requires WfGrammar(g) && StartIsFresh(g) && Lr0(g, a) && SoundTable(g, a, tb)
    requires RunInv(g, a, w, c)
    ensures RunInv(g, a, w, Run(g, tb, c, n))
    decreases n
  {
    hide StreamStep, RunInv, Lr0, SoundTable, StartIsFresh;
    if n > 0 {
      StreamStepSound(g, a, tb, w, c);
      RunSound(g, a, tb, w, StreamStep(g, tb, c), n - 1);
    }
  }

  ghost predicate EndsWell(g: Grammar, w: seq<nat>, o: Outcome) {
    match o
    case Accepted(p) => RightmostBy(g, [g.start], p.trail, p.shifted) && (p.errors == 0 ==> p.shifted == w)
    case Failed(p) => p.errors > 0
    case _ => false
  }

  /** Soundness. Whatever the input, the driver never fails an assertion, and when it accepts, its
      reductions read backwards are a rightmost derivation of the tokens it shifted; these are the
      whole input if no syntax error was reported. */
  lemma DriverSound(g: Grammar, a: Automaton, tb: Table, w: seq<nat>, n: nat)
    requires WfGrammar(g) && StartIsFresh(g) && Lr0(g, a) && SoundTable(g, a, tb) && AllTokens(g, w)
    ensures var c := Run(g, tb, Running(Fresh, w), n); c.Halted? ==> EndsWell(g, w, c.outcome)
  {
    assert Symbols(Fresh.stack) == [];
    assert Path(a, Fresh.stack);
    assert Fresh.shifted + w == w;
    RunSound(g, a, tb, w, Running(Fresh, w), n);
  }

  lemma AcceptsOnlySentences(g: Grammar, a: Automaton, tb: Table, w: seq<nat>)
    requires WfGrammar(g) && StartIsFresh(g) && Lr0(g, a) && SoundTable(g, a, tb) && AllTokens(g, w)
    requires Accepts(g, tb, w)
    ensures InLanguage(g, w)
  {
    var n: nat :| var c := Run(g, tb, Running(Fresh, w), n);
      c.Halted? && c.outcome.Accepted? && c.outcome.p.errors == 0;
    DriverSound(g, a, tb, w, n);
    var p := Run(g, tb, Running(Fresh, w), n).outcome.p;
    RightmostDerives(g, [g.start], p.trail, w);
  }

  // ----- completeness

  datatype ConfigRef = ConfigRef(state: nat, item: Item)

  /** The follow-set of each configuration of each state. */
  type Follow = map<ConfigRef, set<nat>>

  ghost predicate Follows(la: Follow, q: nat, it: Item, t: nat) {
    ConfigRef(q, it) in la && t in la[ConfigRef(q, it)]
  }

  /** Follow-sets travel with the dot. */
  ghost predicate CarriedAt(g: Grammar, a: Automaton, la: Follow, q: nat, it: Item, q': nat, t: nat) {
    Has(a, q, it) && Shiftable(g, it) && Goes(a, q, After(g, it), q') && Follows(la, q, it, t) ==>
      Follows(la, q', Advance(it), t)
  }

  /** What may follow a nonterminal may follow each of its rules: the first tokens of what stands
      behind it, and the follow-set of the whole if all of that can vanish. */
  ghost predicate SpreadAt(g: Grammar, a: Automaton, la: Follow, q: nat, it: Item, r: nat, t: nat) {
    Has(a, q, it) && Shiftable(g, it) && r < |g.rules| && After(g, it) == Sym(g.rules[r].lhs) ==>
      var beta := g.rules[it.rule].rhs[it.dot + 1..];
      (FirstSeq(g, beta, t) || (NullableSeq(g, beta) && Follows(la, q, it, t)) ==> Follows(la, q, Item(r, 0), t))
  }

  ghost predicate FollowsClosed(g: Grammar, a: Automaton, la: Follow) {
    && (forall r: nat :: r < |g.rules| && g.rules[r].lhs == g.start ==> Follows(la, 0, Item(r, 0), 0))
    && (forall q, it, q', t :: CarriedAt(g, a, la, q, it, q', t))
    && (forall q, it, r, t :: SpreadAt(g, a, la, q, it, r, t))
  }

  ghost predicate ShiftsAt(g: Grammar, a: Automaton, tb: Table, q: nat, it: Item, q': nat, c: nat) {
    Has(a, q, it) && Shiftable(g, it) && Goes(a, q, After(g, it), q') && Fits(c, After(g, it)) && c < g.nterminal ==>
      Lookup(tb, q, c) == Shift(q')
  }

  ghost predicate ReducesAt(g: Grammar, a: Automaton, la: Follow, tb: Table, q: nat, r: nat, c: nat) {
    r < |g.rules| && Has(a, q, Final(g, r)) && Follows(la, q, Final(g, r), c) && c < g.nterminal ==>
      Lookup(tb, q, c) == Reduce(r)
  }

  /** Whatever a configuration calls for, the table does. */
  ghost predicate CompleteTable(g: Grammar, a: Automaton, la: Follow, tb: Table) {
    && Lookup(tb, 0, g.start) == Accept
    && (forall q, c, q' :: GotoAt(g, a, tb, q, c, q'))
    && (forall q, it, q', c :: ShiftsAt(g, a, tb, q, it, q', c))
    && (forall q, r, c :: ReducesAt(g, a, la, tb, q, r, c))
  }

  ghost predicate Right(g: Grammar, a: Automaton, la: Follow, tb: Table) {
    WfGrammar(g) && StartIsFresh(g) && Lr0(g, a) && FollowsClosed(g, a, la) && CompleteTable(g, a, la, tb)
  }

  /** The lookahead after the first tree of a forest may follow the rules of its root. */
  lemma FollowOfKid(g: Grammar, a: Automaton, la: Follow, q: nat, it: Item, r: nat, ts: seq<Tree>, rest: seq<nat>)
    requires WfGrammar(g) && FollowsClosed(g, a, la)
    requires Has(a, q, it) && Shiftable(g, it) && r < |g.rules| && After(g, it) == Sym(g.rules[r].lhs)
    requires ValidForest(g, ts) && Spells(Roots(g, ts), g.rules[it.rule].rhs[it.dot + 1..])
    requires Follows(la, q, it, Ahead(rest))
    ensures Follows(la, q, Item(r, 0), Ahead(Yields(ts) + rest))
  {
    var beta := g.rules[it.rule].rhs[it.dot + 1..];
    assert WfRule(g, g.rules[it.rule]);
    assert WfSymbols(g, beta);
    if Yields(ts) == [] {
      assert Yields(ts) + rest == rest;
      ForestVanishes(g, beta, ts);
    } else {
      ForestBegins(g, beta, ts);
      assert (Yields(ts) + rest)[0] == Yields(ts)[0];
    }
    assert SpreadAt(g, a, la, q, it, r, Ahead(Yields(ts) + rest));
  }

  /** The parser has read a forest: its stack has grown by the forest's roots, nothing else changed
      but the history, and its top state is past the configuration's remaining symbols. */
  ghost predicate Parsed(g: Grammar, a: Automaton, la: Follow, p: Parser, p': Parser, k: nat, r: nat, t: nat) {
    && |p'.stack| == |p.stack| + k && p'.stack[..|p.stack|] == p.stack && p'.errors == p.errors
    && p'.stack != [] && p'.stack[|p'.stack| - 1].act.Shift?
    && r < |g.rules| && Has(a, TopState(p'.stack), Final(g, r)) && Follows(la, TopState(p'.stack), Final(g, r), t)
  }

  lemma ShiftLeaf(g: Grammar, a: Automaton, la: Follow, tb: Table, p: Parser, it: Item, rest: seq<nat>)
    returns (p': Parser)
    requires Right(g, a, la, tb) && p.stack != [] && p.stack[|p.stack| - 1].act.Shift? && rest != []
    requires Has(a, TopState(p.stack), it) && Shiftable(g, it)
    requires Fits(rest[0], After(g, it)) && IsToken(g, rest[0])
    ensures StreamStep(g, tb, Running(p, rest)) == Running(p', rest[1..])
    ensures p'.errors == p.errors && p'.stack != [] && p'.stack[..|p'.stack| - 1] == p.stack
    ensures p'.stack[|p'.stack| - 1].act.Shift? && Goes(a, TopState(p.stack), After(g, it), TopState(p'.stack))
  {
    var q := TopState(p.stack);
    assert ForwardAt(g, a, q, it);
    var q' :| Goes(a, q, After(g, it), q') && Has(a, q', Advance(it));
    assert ShiftsAt(g, a, tb, q, it, q', rest[0]);
    p' := p.(stack := p.stack + [Entry(Shift(q'), rest[0])], shifted := p.shifted + [rest[0]]);
  }

  /** Having read all of a rule's right-hand side, the driver reduces and takes the goto. */
  lemma ReduceNode(g: Grammar, a: Automaton, la: Follow, tb: Table, p: Parser, m: Parser, it: Item, r: nat, rest: seq<nat>)
    returns (p': Parser)
    requires Right(g, a, la, tb) && p.stack != [] && p.stack[|p.stack| - 1].act.Shift?
    requires Has(a, TopState(p.stack), it) && Shiftable(g, it) && r < |g.rules| && After(g, it) == Sym(g.rules[r].lhs)
    requires Parsed(g, a, la, p, m, |g.rules[r].rhs|, r, Ahead(rest)) && AllTokens(g, rest)
    ensures StreamStep(g, tb, Running(m, rest)) == Running(p', rest)
    ensures p'.errors == p.errors && p'.stack != [] && p'.stack[..|p'.stack| - 1] == p.stack
    ensures p'.stack[|p'.stack| - 1].act.Shift? && Goes(a, TopState(p.stack), After(g, it), TopState(p'.stack))
  {
    var q, c := TopState(p.stack), g.rules[r].lhs;
    assert ReducesAt(g, a, la, tb, TopState(m.stack), r, Ahead(rest));
    assert ForwardAt(g, a, q, it);
    var q' :| Goes(a, q, After(g, it), q') && Has(a, q', Advance(it));
    assert WfRule(g, g.rules[r]);
    assert GotoAt(g, a, tb, q, c, q');
    p' := m.(stack := p.stack + [Entry(Shift(q'), c)], trail := [r] + m.trail);
    assert ReduceStep(g, tb, m, r) == Again(p');
  }

  /** The driver reads a forest of trees standing after the dot of a configuration of its state. */
  lemma {:induction false} ReadForest(g: Grammar, a: Automaton, la: Follow, tb: Table,
                                      p: Parser, it: Item, ts: seq<Tree>, rest: seq<nat>)
    returns (p': Parser, n: nat)
    requires Right(g, a, la, tb) && p.stack != [] && p.stack[|p.stack| - 1].act.Shift?
    requires Has(a, TopState(p.stack), it) && WfItem(g, it) && Follows(la, TopState(p.stack), it, Ahead(rest))
    requires ValidForest(g, ts) && Spells(Roots(g, ts), g.rules[it.rule].rhs[it.dot..]) && AllTokens(g, rest)
    ensures Run(g, tb, Running(p, Yields(ts) + rest), n) == Running(p', rest) && n == ForestSize(ts)
    ensures Parsed(g, a, la, p, p', |ts|, it.rule, Ahead(rest))
    decreases ts
  {
    hide StreamStep, StartIsFresh;
    if ts == [] {
      p', n := p, 0;
      assert Yields(ts) + rest == rest;
      assert p.stack[..|p.stack|] == p.stack;
      assert it == Final(g, it.rule);
    } else {
      var q := TopState(p.stack);
      var m, k := ReadTree(g, a, la, tb, p, it, ts, rest);
      var q' := TopState(m.stack);
      assert ForwardAt(g, a, q, it) && CarriedAt(g, a, la, q, it, q', Ahead(rest));
      assert g.rules[it.rule].rhs[it.dot..][1..] == g.rules[it.rule].rhs[it.dot + 1..];
      var l;
      p', l := ReadForest(g, a, la, tb, m, Advance(it), ts[1..], rest);
      n := k + l;
      RunPlus(g, tb, Running(p, Yields(ts) + rest), k, l);
      assert p'.stack[..|p.stack|] == p'.stack[..|m.stack|][..|p.stack|] == p.stack;
    }
  }

  lemma RulesThere(g: Grammar, a: Automaton, q: nat, it: Item, r: nat)
    requires Lr0(g, a) && Has(a, q, it) && Shiftable(g, it) && r < |g.rules| && After(g, it) == Sym(g.rules[r].lhs)
    ensures Has(a, q, Item(r, 0))
  {
    assert ClosedAt(g, a, q, r);
  }

  lemma MoreTokens(g: Grammar, ts: seq<Tree>, rest: seq<nat>)
    requires ValidForest(g, ts) && AllTokens(g, rest)
    ensures AllTokens(g, Yields(ts) + rest)
  {
    YieldTokens(g, ts);
  }

  /** The driver reads the first tree of a forest. */
  lemma {:induction false} ReadTree(g: Grammar, a: Automaton, la: Follow, tb: Table,
                                    p: Parser, it: Item, ts: seq<Tree>, rest: seq<nat>)
    returns (p': Parser, n: nat)
    requires Right(g, a, la, tb) && p.stack != [] && p.stack[|p.stack| - 1].act.Shift? && ts != []
    requires Has(a, TopState(p.stack), it) && WfItem(g, it) && Follows(la, TopState(p.stack), it, Ahead(rest))
    requires ValidForest(g, ts) && Spells(Roots(g, ts), g.rules[it.rule].rhs[it.dot..]) && AllTokens(g, rest)
    ensures Shiftable(g, it)
    ensures Run(g, tb, Running(p, Yields(ts) + rest), n) == Running(p', Yields(ts[1..]) + rest) && n == TreeSize(ts[0])
    ensures p'.errors == p.errors && p'.stack != [] && p'.stack[..|p'.stack| - 1] == p.stack
    ensures p'.stack[|p'.stack| - 1].act.Shift? && Goes(a, TopState(p.stack), After(g, it), TopState(p'.stack))
    decreases ts, 0
  {
    hide StreamStep, CompleteTable, StartIsFresh, Lr0, FollowsClosed, Fits, AllTokens;
    var more := Yields(ts[1..]) + rest;
    FirstOfForest(g, it, ts, rest);
    match ts[0]
    case Leaf(c) =>
      p' := ShiftLeaf(g, a, la, tb, p, it, [c] + more);
      n := 1;
      assert Run(g, tb, Running(p, [c] + more), 1) == StreamStep(g, tb, Running(p, [c] + more));
    case Node(r, kids) =>
      RulesThere(g, a, TopState(p.stack), it, r);
      MoreTokens(g, ts[1..], rest);
      FollowOfKid(g, a, la, TopState(p.stack), it, r, ts[1..], rest);
      var m, k := ReadForest(g, a, la, tb, p, Item(r, 0), kids, more);
      p' := ReduceNode(g, a, la, tb, p, m, it, r, more);
      n := k + 1;
      RunPlus(g, tb, Running(p, Yields(kids) + more), k, 1);
      assert Run(g, tb, Running(m, more), 1) == StreamStep(g, tb, Running(m, more));
  }

  /** The symbol after the dot is the root of the first tree, whose frontier comes first. */
  lemma FirstOfForest(g: Grammar, it: Item, ts: seq<Tree>, rest: seq<nat>)
    requires WfGrammar(g) && WfItem(g, it) && ts != []
    requires ValidForest(g, ts) && Spells(Roots(g, ts), g.rules[it.rule].rhs[it.dot..])
    ensures Shiftable(g, it)
    ensures Spells(Roots(g, ts[1..]), g.rules[it.rule].rhs[it.dot + 1..])
    ensures Yields(ts) + rest == Yield(ts[0]) + (Yields(ts[1..]) + rest)
    ensures ts[0].Leaf? ==> Fits(ts[0].tok, After(g, it))
    ensures ts[0].Node? ==>
      && ts[0].rule < |g.rules| && After(g, it) == Sym(g.rules[ts[0].rule].lhs)
      && g.rules[ts[0].rule].rhs[0..] == g.rules[ts[0].rule].rhs
  {
    assert WfRule(g, g.rules[it.rule]) && Fits(Root(g, ts[0]), After(g, it));
    assert After(g, it) in g.rules[it.rule].rhs;
    assert g.rules[it.rule].rhs[it.dot..][1..] == g.rules[it.rule].rhs[it.dot + 1..];
    assert Yields(ts) == Yield(ts[0]) + Yields(ts[1..]);
    if ts[0].Node? {
      assert WfRule(g, g.rules[ts[0].rule]);
    }
  }

  /** A parse tree of a sentence is read in as many steps as it has nodes and leaves, and the next step accepts. */
  lemma SentenceRead(g: Grammar, a: Automaton, la: Follow, tb: Table, t: Tree) returns (m: Parser, p: Parser)
    requires Right(g, a, la, tb) && ValidTree(g, t) && Root(g, t) == g.start
    ensures Run(g, tb, Running(Fresh, Yield(t)), TreeSize(t)) == Running(p, []) && p.errors == 0
    ensures Run(g, tb, Running(Fresh, Yield(t)), TreeSize(t) + 1) == Halted(Accepted(p.(stack := [Bottom])))
  {
    hide CompleteTable, FollowsClosed, Lr0, StartIsFresh;
    NodeOfStart(g, t);
    var r, kids := t.rule, t.kids;
    StartThere(g, a, la, tb, r);
    assert g.rules[r].rhs[0..] == g.rules[r].rhs;
    assert Yields(kids) + [] == Yield(t);
    var n;
    m, n := ReadForest(g, a, la, tb, Fresh, Item(r, 0), kids, []);
    ReducesThere(g, a, la, tb, TopState(m.stack), r, 0);
    p := m.(stack := [Bottom, Entry(Accept, g.start)], trail := [r] + m.trail);
    assert ReduceStep(g, tb, m, r) == Again(p);
    AcceptInTwo(g, tb, m, p);
    RunPlus(g, tb, Running(Fresh, Yield(t)), n, 1);
    RunPlus(g, tb, Running(Fresh, Yield(t)), n, 2);
  }

  lemma NodeOfStart(g: Grammar, t: Tree)
    requires WfGrammar(g) && ValidTree(g, t) && Root(g, t) == g.start
    ensures t.Node? && t.rule < |g.rules| && g.rules[t.rule].lhs == g.start
  {
  }

  lemma StartThere(g: Grammar, a: Automaton, la: Follow, tb: Table, r: nat)
    requires Right(g, a, la, tb) && r < |g.rules| && g.rules[r].lhs == g.start
    ensures Has(a, 0, Item(r, 0)) && Follows(la, 0, Item(r, 0), 0) && Lookup(tb, 0, g.start) == Accept
  {
    assert ClosedAt(g, a, 0, r);
  }

  lemma ReducesThere(g: Grammar, a: Automaton, la: Follow, tb: Table, q: nat, r: nat, c: nat)
    requires Right(g, a, la, tb) && r < |g.rules| && Has(a, q, Final(g, r)) && Follows(la, q, Final(g, r), c) && c < g.nterminal
    ensures Lookup(tb, q, c) == Reduce(r)
  {
    assert ReducesAt(g, a, la, tb, q, r, c);
  }

  /** Completeness. Every sentence of the grammar is accepted, and without a syntax error. */
  lemma SentencesAccepted(g: Grammar, a: Automaton, la: Follow, tb: Table, w: seq<nat>)
    requires Right(g, a, la, tb) && InLanguage(g, w)
    ensures Accepts(g, tb, w)
  {
    hide Right;
    var d: nat :| DerivesIn(g, [g.start], w, d);
    var ts := DerivationForest(g, [g.start], w, d);
    assert Roots(g, ts)[0] == g.start;
    assert Yields(ts) == Yield(ts[0]) + Yields(ts[1..]) == Yield(ts[0]);
    var m, p := SentenceRead(g, a, la, tb, ts[0]);
  }

  lemma AcceptInTwo(g: Grammar, tb: Table, m: Parser, p: Parser)
    requires LoopStep(g, tb, m, 0) == Again(p) && p.stack == [Bottom, Entry(Accept, g.start)]
    ensures Run(g, tb, Running(m, []), 1) == Running(p, [])
    ensures Run(g, tb, Running(m, []), 2) == Halted(Accepted(p.(stack := [Bottom])))
  {
    assert StreamStep(g, tb, Running(m, [])) == Running(p, []);
    assert p.stack[..1] == [Bottom];
    assert StreamStep(g, tb, Running(p, [])) == Halted(Accepted(p.(stack := [Bottom])));
    assert Run(g, tb, Running(m, []), 2) == Run(g, tb, Running(p, []), 1);
  }

  /** A table that does what its automaton allows and calls for accepts exactly the language. */
  lemma AcceptsExactlyTheLanguage(g: Grammar, a: Automaton, la: Follow, tb: Table, w: seq<nat>)
    requires Right(g, a, la, tb) && SoundTable(g, a, tb) && AllTokens(g, w)
    ensures Accepts(g, tb, w) <==> InLanguage(g, w)
  {
    if Accepts(g, tb, w) {
      AcceptsOnlySentences(g, a, tb, w);
    }
    if InLanguage(g, w) {
      SentencesAccepted(g, a, la, tb, w);
    }
  }
}
