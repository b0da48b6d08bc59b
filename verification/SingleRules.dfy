/** Grammars in which every rule has one symbol, and what lemon (tools/lemon/lemon.c) makes of them:
    states, follow-sets and entries. */
module SingleRules {
  // The first state asks for everything, and what it shifts to only reduces.

  import opened Grammars
  import opened LrTheory
  import opened Termination
  import opened States
  import opened FollowSets
  import opened Conflicts
  import opened ActionLists
  import opened Compress
  import opened Wrappers
  import opened Generator
  import opened BuildFacts

  ghost predicate Singles(g: Grammar) {
    WfGrammar(g) && StartIsFresh(g) && NoClasses(g) && forall r: nat :: r < |g.rules| ==> |g.rules[r].rhs| == 1
  }

  // ----- only the end of input follows

  ghost function EndFamily(a: Automaton): Follow {
    map c | c in AllRefs(a) :: {0}
  }

  ghost function AllRefs(a: Automaton): set<ConfigRef> {
    set q, it | 0 <= q < |a.items| && it in a.items[q] :: ConfigRef(q, it)
  }

  lemma EndInFamily(a: Automaton, q: nat, it: Item, t: nat)
    ensures Follows(EndFamily(a), q, it, t) <==> Has(a, q, it) && t == 0
  {
    assert ConfigRef(q, it) in AllRefs(a) <==> Has(a, q, it);
  }

  lemma EndFamilyClosed(g: Grammar, a: Automaton)
    requires Singles(g) && Lr0(g, a)
    ensures FollowsClosed(g, a, EndFamily(a))
  {
    hide EndFamily, Lr0, Singles, Follows, CarriedAt, SpreadAt;
    var h := EndFamily(a);
    forall r: nat | r < |g.rules| && g.rules[r].lhs == g.start ensures Follows(h, 0, Item(r, 0), 0) {
      StartThere(g, a, r);
      EndInFamily(a, 0, Item(r, 0), 0);
    }
    forall q: nat, it, q': nat, t: nat ensures CarriedAt(g, a, h, q, it, q', t) {
      EndCarried(g, a, q, it, q', t);
    }
    forall q: nat, it, r: nat, t: nat ensures SpreadAt(g, a, h, q, it, r, t) {
      EndSpread(g, a, q, it, r, t);
    }
  }

  lemma StartThere(g: Grammar, a: Automaton, r: nat)
    requires Lr0(g, a) && r < |g.rules| && g.rules[r].lhs == g.start
    ensures Has(a, 0, Item(r, 0))
  {
    assert ClosedAt(g, a, 0, r);
  }

  lemma EndCarried(g: Grammar, a: Automaton, q: nat, it: Item, q': nat, t: nat)
    requires Lr0(g, a)
    ensures CarriedAt(g, a, EndFamily(a), q, it, q', t)
  {
    hide EndFamily, Follows;
    EndInFamily(a, q, it, t);
    EndInFamily(a, q', Advance(it), t);
    assert ForwardAt(g, a, q, it);
  }

  lemma EndSpread(g: Grammar, a: Automaton, q: nat, it: Item, r: nat, t: nat)
    requires Singles(g) && Lr0(g, a)
    ensures SpreadAt(g, a, EndFamily(a), q, it, r, t)
  {
    hide EndFamily, Follows, Lr0;
    EndInFamily(a, q, it, t);
    EndInFamily(a, q, Item(r, 0), t);
    if Has(a, q, it) && CallsRule(g, it, r) {
      RulesThere(g, a, q, it, r);
      assert g.rules[it.rule].rhs[it.dot + 1..] == [];
    }
  }

  lemma EndFollows(g: Grammar, b: Build, q: nat, it: Item, t: nat)
    requires BuildOk(g, b) && Singles(g) && Follows(b.f, q, it, t)
    ensures t == 0
  {
    hide BuildOk, FollowsClosed, EndFamily;
    Parts(g, b);
    var a := AutomatonOf(b.ss);
    EndFamilyClosed(g, a);
    assert Within(b.f, EndFamily(a));
    EndInFamily(a, q, it, t);
  }

  // ----- the other states

  lemma OthersComplete(g: Grammar, a: Automaton, q: nat, it: Item)
    requires Singles(g) && Lr0(g, a) && LeastItems(g, a) && q != 0 && Has(a, q, it)
    ensures it.dot == 1 && it.rule < |g.rules|
  {
    var s := set x | x in a.items[q] && x.dot == 1 && x.rule < |g.rules|;
    forall x | Has(a, q, x) && Kernel(g, q, x) ensures x in s {
      assert WfAt(g, a, q, x);
    }
    FromKernel(g, a, q, s);
  }

  lemma OthersStay(g: Grammar, a: Automaton, q: nat, x: Symbol, q': nat)
    requires Singles(g) && Lr0(g, a) && LeastItems(g, a) && Goes(a, q, x, q')
    ensures q == 0
  {
    assert TightAt(g, a, q, x, q');
    var it :| Has(a, q, it) && Shiftable(g, it) && After(g, it) == x;
    if q != 0 {
      OthersComplete(g, a, q, it);
    }
  }

  /** What is complete in the state behind a symbol. */
  lemma CompleteBehind(g: Grammar, a: Automaton, c: nat, q: nat, r: nat)
    requires Singles(g) && Lr0(g, a) && Goes(a, 0, Sym(c), q) && r < |g.rules|
    ensures Has(a, q, Final(g, r)) <==> Has(a, 0, Item(r, 0)) && g.rules[r].rhs == [Sym(c)]
  {
    if Has(a, q, Final(g, r)) {
      Back(g, a, 0, Sym(c), q, Final(g, r));
    }
    if Has(a, 0, Item(r, 0)) && g.rules[r].rhs == [Sym(c)] {
      assert ForwardAt(g, a, 0, Item(r, 0));
    }
  }

  /** Every state but the first is behind a symbol. */
  lemma BehindSymbol(g: Grammar, a: Automaton, q: nat) returns (c: nat)
    requires Singles(g) && Lr0(g, a) && LeastItems(g, a) && AllReached(a) && 0 < q < |a.items|
    ensures Goes(a, 0, Sym(c), q) && Asks(g, a, 0, Sym(c))
  {
    assert ReachedAt(a, q);
    var q0: nat, x :| q0 < q && Goes(a, q0, x, q);
    OthersStay(g, a, q0, x, q);
    assert TightAt(g, a, 0, x, q);
    var it :| Has(a, 0, it) && Shiftable(g, it) && After(g, it) == x;
    assert WfAt(g, a, 0, it);
    assert g.rules[it.rule] in g.rules && x in g.rules[it.rule].rhs;
    c := x.code;
  }

  /** A live action of another state reduces at the end of input. */
  lemma LiveElsewhere(g: Grammar, b: Build, q: nat, x: Action)
    requires BuildOk(g, b) && Singles(g) && 0 < q < |b.ap| && x in b.ap[q] && Live(x.kind)
    ensures x.sp == 0 && x.kind.REDUCE? && Wanted(g, AutomatonOf(b.ss), b.f, q, 0, REDUCE, x.arg)
  {
    hide BuildOk, Lr0, LeastItems, AllReached, FollowsClosed, FollowsLeast, AllStates, Follows, ListsOk, Singles;
    Parts(g, b);
    var a := AutomatonOf(b.ss);
    ListAt(g, b, q);
    var i :| 0 <= i < |b.ap[q]| && b.ap[q][i] == x;
    assert Wanted(g, a, b.f, q, x.sp, x.kind, x.arg);
    if x.kind.SHIFT? {
      var z :| Goes(a, q, z, x.arg) && Fits(x.sp, z);
      OthersStay(g, a, q, z, x.arg);
    } else {
      EndFollows(g, b, q, Final(g, x.arg), x.sp);
    }
  }

  /** In every other state the earliest rule that is complete wins. */
  lemma EarliestWins(g: Grammar, p: Precedence, b: Build, q: nat, r: nat)
    requires BuildOk(g, b) && Decided(g, p, b) && NoLevels(p) && Singles(g) && 0 < q < |b.ap|
    requires Wanted(g, AutomatonOf(b.ss), b.f, q, 0, REDUCE, r)
    requires forall k: nat :: k < r ==> !(k < |g.rules| && Has(AutomatonOf(b.ss), q, Final(g, k)))
    ensures forall x :: x in b.ap[q] && Live(x.kind) ==> x.sp == 0 && x.kind.REDUCE? && x.arg == r
    ensures exists x :: x in b.ap[q] && x.kind.REDUCE? && x.arg == r
  {
    hide BuildOk, ListOk, GotosLive;
    Parts(g, b);
    var a := AutomatonOf(b.ss);
    assert StateDone(g, p, a, b.f, q, b.ap[q]) && EarliestAt(g, a, b.f, q, b.ap[q]);
    forall x | x in b.ap[q] && Live(x.kind) ensures x.sp == 0 && x.kind.REDUCE? && x.arg == r {
      LiveElsewhere(g, b, q, x);
      var i :| 0 <= i < |b.ap[q]| && b.ap[q][i] == x;
      assert Wanted(g, a, b.f, q, b.ap[q][i].sp, REDUCE, r);
    }
    var y := LiveEntry(g, b, q, 0, REDUCE, r);
  }

  /** So the state only reduces, unless by a start rule. */
  lemma AutoReduces(g: Grammar, p: Precedence, b: Build, q: nat, r: nat)
    requires BuildOk(g, b) && Decided(g, p, b) && NoLevels(p) && Singles(g) && 0 < q < |b.ap| == |b.autos|
    requires Wanted(g, AutomatonOf(b.ss), b.f, q, 0, REDUCE, r)
    requires forall k: nat :: k < r ==> !(k < |g.rules| && Has(AutomatonOf(b.ss), q, Final(g, k)))
    ensures b.autos[q] == if IsStartRule(g, r) then None else Some(r)
  {
    hide BuildOk, Decided, Wanted, Singles, Uses, OneEmitted, DistinctIds;
    EarliestWins(g, p, b, q, r);
    Facts(g, b, q);
    AutosAreBest(g, b, q);
    if b.best[q].Some? {
      forall i | 0 <= i < |b.ap1[q]| ensures !b.ap1[q][i].kind.SHIFT? && (b.ap1[q][i].kind.REDUCE? ==> b.ap1[q][i].arg == r) {
        assert b.ap1[q][i] in b.ap1[q];
      }
    }
  }

  /** The entry of the first state on a nonterminal. */
  lemma FirstEntry(g: Grammar, b: Build, c: nat, q: nat, x: Action)
    requires BuildOk(g, b) && Singles(g) && Goes(AutomatonOf(b.ss), 0, Sym(c), q) && g.nterminal <= c < g.nsymbol && c != g.start
    requires 0 < |b.ap2| == |b.ap| == |b.autos| && x in b.ap2[0] && x.sp == c
    ensures q < |b.autos|
    ensures if b.autos[q].Some? then x.kind == SHIFTREDUCE && x.arg == b.autos[q].value else x.kind == SHIFT && x.arg == q
  {
    hide BuildOk, Lr0, LeastItems, AllReached, FollowsClosed, FollowsLeast, AllStates, Follows, ListsOk, Uses, OneEmitted, DistinctIds, ListOk;
    Parts(g, b);
    Facts(g, b, 0);
    var a := AutomatonOf(b.ss);
    var i :| 0 <= i < |b.ap2[0]| && b.ap2[0][i] == x;
    var y := b.ap1[0][i];
    assert y in b.ap1[0] && y.sp == c;
    assert y in b.ap[0];
    ListAt(g, b, 0);
    LiveWanted(g, a, b.f, 0, b.ap[0], y);
    SymMove(g, a, 0, c, y.arg);
    TargetInside(g, a, 0, Sym(c), q);
  }

  lemma TargetInside(g: Grammar, a: Automaton, q: nat, x: Symbol, q': nat)
    requires Lr0(g, a) && Goes(a, q, x, q')
    ensures q' < |a.items|
  {
    assert TightAt(g, a, q, x, q');
  }

  /** The entry of the first state on the left-hand side of a rule. */
  lemma EntryOn(g: Grammar, b: Build, r: nat) returns (i: nat)
    requires BuildOk(g, b) && r < |g.rules| && Has(AutomatonOf(b.ss), 0, Item(r, 0))
    ensures |b.ap2| == |b.ap| > 0 && i < |b.ap2[0]| && b.ap2[0][i].sp == g.rules[r].lhs
  {
    CompressedSizes(g, b);
    StartHasEntry(g, b, 0, r);
    var y :| y in b.ap2[0] && y.sp == g.rules[r].lhs;
    i :| 0 <= i < |b.ap2[0]| && b.ap2[0][i] == y;
  }

  /** The first state has all rules, each followed by the end of input. */
  ghost predicate AllFirst(g: Grammar, a: Automaton, f: Follow) {
    forall r: nat :: r < |g.rules| ==> Has(a, 0, Item(r, 0)) && Follows(f, 0, Item(r, 0), 0)
  }

  /** The state behind `c` reduces by the earliest rule with `c` on its right-hand side. */
  lemma Behind(g: Grammar, p: Precedence, b: Build, c: nat, r: nat) returns (q: nat)
    requires BuildOk(g, b) && Decided(g, p, b) && NoLevels(p) && Singles(g) && AllFirst(g, AutomatonOf(b.ss), b.f)
    requires r < |g.rules| && g.rules[r].rhs == [Sym(c)] && forall k: nat :: k < r ==> g.rules[k].rhs != [Sym(c)]
    ensures Goes(AutomatonOf(b.ss), 0, Sym(c), q) && q < |b.autos| && b.autos[q] == if IsStartRule(g, r) then None else Some(r)
  {
    hide BuildOk, Decided, NoLevels, LeastItems, AllReached, AllStates, ListsOk;
    Parts(g, b);
    var a := AutomatonOf(b.ss);
    q := GoOn(g, a, 0, Item(r, 0));
    Carry(g, a, b.f, 0, Item(r, 0), q, 0);
    assert Fits(c, Sym(c)) && Moves(a, 0, c, q);
    NoWayBack(g, a, 0, c, q);
    forall k: nat | k < r ensures !Has(a, q, Final(g, k)) {
      CompleteBehind(g, a, c, q, k);
    }
    hide Singles;
    AutoReduces(g, p, b, q, r);
  }
}
