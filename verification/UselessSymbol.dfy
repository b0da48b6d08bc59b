/** A grammar without conflicts whose generated parser never comes to an end, because a nonterminal in use derives no
    string of tokens. */
module UselessSymbol {
  import opened Grammars
  import opened FirstSets
  import opened Driver
  import opened LrTheory
  import opened Termination
  import opened Unambiguous
  import opened States
  import opened FollowSets
  import opened Conflicts
  import opened ActionLists
  import opened Generator
  import opened BuildFacts

  // Symbols: 0 end of input, 1 e, 2 S, 3 E, 4 I, 5 A, 6 V. No string of tokens can be derived from V.

  /** S ::= E.  E ::= I A.  I ::= A.  A ::= .  A ::= V.  V ::= E V I I e. */
  const G := Grammar(2, 7, 2, [Rule(2, [Sym(3)]), Rule(3, [Sym(4), Sym(5)]), Rule(4, [Sym(5)]), Rule(5, []), Rule(5, [Sym(6)]),
                               Rule(6, [Sym(3), Sym(6), Sym(4), Sym(4), Sym(1)])])

  lemma Well()
    ensures WfGrammar(G) && StartIsFresh(G) && NoClasses(G) && PlainClasses(G) && |G.rules| == 6
    ensures G.rules[0] == Rule(2, [Sym(3)]) && G.rules[1] == Rule(3, [Sym(4), Sym(5)]) && G.rules[2] == Rule(4, [Sym(5)])
    ensures G.rules[3] == Rule(5, []) && G.rules[4] == Rule(5, [Sym(6)])
    ensures G.rules[5] == Rule(6, [Sym(3), Sym(6), Sym(4), Sym(4), Sym(1)])
  {
    forall i | 0 <= i < 6 ensures WfRule(G, G.rules[i]) && Sym(2) !in G.rules[i].rhs && forall x :: x in G.rules[i].rhs ==> x.Sym? {
    }
  }

  // ----- what vanishes and what begins with e

  lemma {:induction false} NeverVanishes(c: nat, n: nat)
    requires c == 1 || c == 6
    ensures !NullableIn(G, c, n)
    decreases n
  {
    Well();
    if n > 0 {
      NeverVanishes(1, n - 1);
      assert !RuleVanishes(G, G.rules[5].rhs, n - 1) by {
        assert G.rules[5].rhs[4] == Sym(1);
      }
    }
  }

  lemma NotNullable()
    ensures !Nullable(G, 1) && !Nullable(G, 6)
  {
    forall n: nat ensures !NullableIn(G, 1, n) && !NullableIn(G, 6, n) {
      NeverVanishes(1, n);
      NeverVanishes(6, n);
    }
  }

  lemma Nullables()
    ensures Nullable(G, 5) && Nullable(G, 4) && NullableSeq(G, [Sym(5)])
  {
    Well();
    NullableRule(G, 3);
    assert NullableSeq(G, G.rules[2].rhs);
    NullableRule(G, 2);
  }

  /** No nonterminal begins with a token. */
  lemma {:induction false} NoFirst(c: nat, t: nat, n: nat)
    requires 3 <= c < 7
    ensures !FirstIn(G, c, t, n)
    decreases n
  {
    Well();
    NotNullable();
    if n > 0 {
      forall r: nat, i: nat ensures !RuleBegins(G, r, i, c, t, n) {
        if r < 6 && i < |G.rules[r].rhs| && n > 0 {
          var x := G.rules[r].rhs[i];
          if x != Sym(1) {
            NoFirst(x.code, t, n - 1);
          } else {
            assert G.rules[r].rhs[..i][1] == Sym(6);
          }
        }
      }
    }
  }

  /** What begins with a token begins with e, behind what vanishes. */
  lemma BeginsWithE(xs: seq<Symbol>, t: nat) returns (i: nat)
    requires FirstSeq(G, xs, t) && forall x :: x in xs ==> x == Sym(1) || (x.Sym? && 3 <= x.code < 7)
    ensures i < |xs| && xs[i] == Sym(1) && t == 1 && NullableSeq(G, xs[..i])
  {
    var n: nat;
    i, n :| BeginsAt(G, xs, i, t, n);
    if xs[i] != Sym(1) {
      NoFirst(xs[i].code, t, n);
    }
  }

  // ----- a bound on the follow-sets

  /** What may follow A and V at the start of a rule in state `q`. */
  ghost predicate Inner(a: Automaton, q: nat, t: nat) {
    || (t == 0 && q == 0)
    || (t == 0 && Has(a, q, Item(1, 1)) && !Has(a, q, Item(5, 3)) && !Has(a, q, Item(5, 4)))
    || (t == 1 && (Has(a, q, Item(5, 2)) || Has(a, q, Item(5, 3))))
  }

  ghost predicate Bound(a: Automaton, q: nat, it: Item, t: nat) {
    t < 2 &&
    match it.rule
    case 0 => t == 0
    case 1 => t == 0 && (it.dot == 0 ==> q == 0) && (it.dot == 1 ==> !Has(a, q, Item(5, 3)) && !Has(a, q, Item(5, 4)))
    case 2 =>
      if it.dot == 0 then (t == 0 && q == 0) || (t == 1 && (Has(a, q, Item(5, 2)) || Has(a, q, Item(5, 3))))
      else t == 0 ==> !Has(a, q, Item(1, 2))
    case 3 => Inner(a, q, t)
    case 4 => if it.dot == 0 then Inner(a, q, t) else !Has(a, q, Item(5, 2))
    case _ => it.dot == 0 ==> Inner(a, q, t) || (t == 1 && Has(a, q, Item(5, 1)))
  }

  ghost function Family(a: Automaton): Follow {
    map c | c in Refs(a) :: set t | t in {0, 1} && Bound(a, c.state, c.item, t)
  }

  ghost function Refs(a: Automaton): set<ConfigRef> {
    set q, it | 0 <= q < |a.items| && it in a.items[q] :: ConfigRef(q, it)
  }

  lemma InFamily(a: Automaton, q: nat, it: Item, t: nat)
    ensures Follows(Family(a), q, it, t) <==> Has(a, q, it) && Bound(a, q, it, t)
  {
    assert ConfigRef(q, it) in Refs(a) <==> Has(a, q, it);
  }

  ghost predicate Ready(a: Automaton) {
    Lr0(G, a) && AllReached(a)
  }

  /** A state never has dotted configurations over two different symbols. */
  lemma Apart(a: Automaton, q: nat, i: Item, j: Item)
    requires Ready(a) && Has(a, q, i) && Has(a, q, j) && i.dot > 0 && j.dot > 0
    ensures i.rule < 6 && j.rule < 6 && i.dot <= |G.rules[i.rule].rhs| && j.dot <= |G.rules[j.rule].rhs|
    ensures G.rules[i.rule].rhs[i.dot - 1] == G.rules[j.rule].rhs[j.dot - 1]
  {
    Well();
    var q0, x := OneBefore(G, a, q, i);
  }

  lemma FirstHasNoDot(a: Automaton, q: nat, it: Item)
    requires Ready(a) && Has(a, q, it)
    ensures WfItem(G, it) && (it.dot > 0 ==> q != 0)
  {
    assert WfAt(G, a, q, it);
  }

  /** Coming from state 0, a state has none of these configurations. */
  lemma NotFromFirst(a: Automaton, x: Symbol, q': nat, r: nat, d: nat)
    requires Ready(a) && Goes(a, 0, x, q') && d >= 2
    ensures !Has(a, q', Item(r, d))
  {
    if Has(a, q', Item(r, d)) {
      Back(G, a, 0, x, q', Item(r, d));
      FirstHasNoDot(a, 0, Item(r, d - 1));
    }
  }

  /** Where V ::= E . V I I e is, neither A nor V at the start of a rule is followed by anything. */
  lemma NothingInner(a: Automaton, q: nat, t: nat)
    requires Ready(a) && Has(a, q, Item(5, 1))
    ensures !Inner(a, q, t)
  {
    Well();
    FirstHasNoDot(a, q, Item(5, 1));
    if Has(a, q, Item(1, 1)) {
      Apart(a, q, Item(1, 1), Item(5, 1));
    }
    if Has(a, q, Item(5, 2)) {
      Apart(a, q, Item(5, 2), Item(5, 1));
    }
    if Has(a, q, Item(5, 3)) {
      Apart(a, q, Item(5, 3), Item(5, 1));
    }
  }

  lemma BoundCarried(a: Automaton, q: nat, it: Item, q': nat, t: nat)
    requires Ready(a) && Has(a, q, it) && Shiftable(G, it) && Goes(a, q, After(G, it), q') && Bound(a, q, it, t)
    ensures Bound(a, q', Advance(it), t)
  {
    hide Inner, Ready;
    Well();
    var x := After(G, it);
    if it.rule == 1 && it.dot == 0 {
      NotFromFirst(a, x, q', 5, 3);
      NotFromFirst(a, x, q', 5, 4);
    } else if it.rule == 2 && t == 0 {
      NotFromFirst(a, x, q', 1, 2);
    } else if it.rule == 4 && Has(a, q', Item(5, 2)) {
      assert Lr0(G, a) by {
        IsLr0(a);
      }
      Back(G, a, q, x, q', Item(5, 2));
      NothingInner(a, q, t);
    }
  }

  lemma IsLr0(a: Automaton)
    requires Ready(a)
    ensures Lr0(G, a) && AllReached(a)
  {
  }

  /** Nothing begins with V. */
  lemma NothingBeforeV(t: nat)
    ensures !FirstSeq(G, G.rules[5].rhs[1..], t)
  {
    Well();
    NotNullable();
    var xs := G.rules[5].rhs[1..];
    forall i: nat, n: nat ensures !BeginsAt(G, xs, i, t, n) {
      NoFirst(6, t, n);
      assert 0 < i <= |xs| ==> xs[..i][0] == Sym(6);
    }
  }

  /** The tail behind the symbol after the dot, and what it brings. */
  lemma TailBrings(it: Item, t: nat)
    requires Shiftable(G, it) && FirstSeq(G, G.rules[it.rule].rhs[it.dot + 1..], t)
    ensures it.rule == 5 && it.dot > 0 && t == 1
  {
    Well();
    NothingBeforeV(t);
    var xs := G.rules[it.rule].rhs[it.dot + 1..];
    forall x | x in xs ensures x == Sym(1) || (x.Sym? && 3 <= x.code < 7) {
      assert x in G.rules[it.rule].rhs;
    }
    var i := BeginsWithE(xs, t);
    assert Sym(1) in G.rules[it.rule].rhs;
  }

  lemma TailVanishes(it: Item)
    requires Shiftable(G, it) && NullableSeq(G, G.rules[it.rule].rhs[it.dot + 1..])
    ensures it.rule < 5 || it.dot == 4
  {
    Well();
    NotNullable();
    forall d: nat | d <= 4 ensures !NullableSeq(G, G.rules[5].rhs[d..]) {
      assert G.rules[5].rhs[d..][4 - d] == Sym(1);
    }
  }

  lemma BoundSpread(a: Automaton, q: nat, it: Item, r: nat, t: nat)
    requires Ready(a) && Has(a, q, it) && CallsRule(G, it, r)
    requires FirstSeq(G, G.rules[it.rule].rhs[it.dot + 1..], t) ||
             (NullableSeq(G, G.rules[it.rule].rhs[it.dot + 1..]) && Bound(a, q, it, t))
    ensures Bound(a, q, Item(r, 0), t)
  {
    Well();
    if FirstSeq(G, G.rules[it.rule].rhs[it.dot + 1..], t) {
      TailBrings(it, t);
    } else {
      TailVanishes(it);
      if it.rule == 0 {
        OnlyInFirst(a, q);
      }
    }
  }

  lemma OnlyInFirst(a: Automaton, q: nat)
    requires Ready(a) && Has(a, q, Item(0, 0))
    ensures q == 0
  {
    Well();
    assert GroundedAt(G, a, q, 0);
  }

  lemma FamilyClosed(a: Automaton)
    requires Ready(a)
    ensures FollowsClosed(G, a, Family(a))
  {
    hide Bound, Family, Ready;
    IsLr0(a);
    Well();
    var h := Family(a);
    forall r: nat | r < |G.rules| && G.rules[r].lhs == G.start ensures Follows(h, 0, Item(r, 0), 0) {
      assert ClosedAt(G, a, 0, r);
      InFamily(a, 0, Item(r, 0), 0);
      StartBound(a);
    }
    forall q: nat, it, q': nat, t: nat ensures CarriedAt(G, a, h, q, it, q', t) {
      if Has(a, q, it) && Shiftable(G, it) && Goes(a, q, After(G, it), q') && Follows(h, q, it, t) {
        InFamily(a, q, it, t);
        InFamily(a, q', Advance(it), t);
        BoundCarried(a, q, it, q', t);
        assert ForwardAt(G, a, q, it);
      }
    }
    forall q: nat, it, r: nat, t: nat ensures SpreadAt(G, a, h, q, it, r, t) {
      if Has(a, q, it) && CallsRule(G, it, r) {
        InFamily(a, q, it, t);
        InFamily(a, q, Item(r, 0), t);
        RulesThere(G, a, q, it, r);
        if FirstSeq(G, G.rules[it.rule].rhs[it.dot + 1..], t) ||
           (NullableSeq(G, G.rules[it.rule].rhs[it.dot + 1..]) && Bound(a, q, it, t)) {
          BoundSpread(a, q, it, r, t);
        }
      }
    }
  }

  lemma StartBound(a: Automaton)
    ensures Bound(a, 0, Item(0, 0), 0)
  {
  }

  // ----- no conflicts

  /** The follow-sets are inside the bound. */
  lemma Follow(b: Build, q: nat, it: Item, t: nat)
    requires BuildOk(G, b)
    ensures Ready(AutomatonOf(b.ss)) && (Follows(b.f, q, it, t) ==> Has(AutomatonOf(b.ss), q, it) && Bound(AutomatonOf(b.ss), q, it, t))
  {
    hide BuildOk, Bound, Family, FollowsClosed;
    Parts(G, b);
    var a := AutomatonOf(b.ss);
    FamilyClosed(a);
    assert Within(b.f, Family(a));
    InFamily(a, q, it, t);
  }

  /** Two complete rules in a state are never to be reduced on the same token. */
  lemma ReducesApart(a: Automaton, q: nat, r: nat, r': nat, t: nat)
    requires Ready(a) && r < r' < 6 && Has(a, q, Final(G, r)) && Has(a, q, Final(G, r'))
    ensures !(Bound(a, q, Final(G, r), t) && Bound(a, q, Final(G, r'), t))
  {
    hide Ready;
    Well();
    if r != 3 && r' != 3 {
      Apart(a, q, Final(G, r), Final(G, r'));
    } else {
      var it := Final(G, if r == 3 then r' else r);
      FirstHasNoDot(a, q, it);
      InnerApart(a, q, it, t);
    }
  }

  /** A state with a complete rule that is not empty has nothing to follow A, except behind V. */
  lemma InnerApart(a: Automaton, q: nat, it: Item, t: nat)
    requires Ready(a) && Has(a, q, it) && it.dot > 0 && it.rule < 6 && it.dot == |G.rules[it.rule].rhs|
    ensures Inner(a, q, t) ==> it.rule == 4 && Has(a, q, Item(5, 2))
  {
    hide Ready;
    Well();
    FirstHasNoDot(a, q, it);
    if Has(a, q, Item(1, 1)) {
      Apart(a, q, Item(1, 1), it);
    }
    if Has(a, q, Item(5, 2)) {
      Apart(a, q, Item(5, 2), it);
    }
    if Has(a, q, Item(5, 3)) {
      Apart(a, q, Item(5, 3), it);
    }
  }

  /** Where e is shifted, nothing is reduced on it. */
  lemma ShiftApart(a: Automaton, q: nat, r: nat)
    requires Ready(a) && Has(a, q, Item(5, 4)) && r < 6 && Has(a, q, Final(G, r))
    ensures !Bound(a, q, Final(G, r), 1)
  {
    hide Ready;
    Well();
    if r != 3 {
      Apart(a, q, Item(5, 4), Final(G, r));
    } else {
      if Has(a, q, Item(5, 2)) {
        Apart(a, q, Item(5, 2), Item(5, 4));
      }
      NotThreeAndFour(a, q);
    }
  }

  lemma NotThreeAndFour(a: Automaton, q: nat)
    requires Ready(a) && Has(a, q, Item(5, 4))
    ensures !Has(a, q, Item(5, 3))
  {
    Well();
    var q0, x := OneBefore(G, a, q, Item(5, 4));
    if Has(a, q, Item(5, 3)) {
      Apart(a, q0, Item(5, 3), Item(5, 2));
    }
  }

  lemma AsksForE(a: Automaton, q: nat)
    requires Ready(a) && Asks(G, a, q, Sym(1))
    ensures Has(a, q, Item(5, 4))
  {
    Well();
    var it :| Has(a, q, it) && Shiftable(G, it) && After(G, it) == Sym(1);
    assert it == Item(5, 4);
  }

  lemma TwoShifts(b: Build, q: nat, sp: nat, x: nat, x': nat)
    requires BuildOk(G, b) && Moves(AutomatonOf(b.ss), q, sp, x) && Moves(AutomatonOf(b.ss), q, sp, x')
    ensures x == x'
  {
    hide BuildOk;
    Parts(G, b);
    Well();
    SymMove(G, AutomatonOf(b.ss), q, sp, x);
    SymMove(G, AutomatonOf(b.ss), q, sp, x');
  }

  lemma ShiftAndReduce(b: Build, q: nat, sp: nat, x: nat, r: nat)
    requires BuildOk(G, b) && r < |G.rules| && Has(AutomatonOf(b.ss), q, Final(G, r)) && Follows(b.f, q, Final(G, r), sp) && sp < 2
    ensures !Moves(AutomatonOf(b.ss), q, sp, x)
  {
    hide BuildOk, Bound, Ready;
    var a := AutomatonOf(b.ss);
    Parts(G, b);
    Well();
    Follow(b, q, Final(G, r), sp);
    if Moves(a, q, sp, x) {
      WantedSymbol(G, a, b.f, q, sp, SHIFT, x);
      SymMove(G, a, q, sp, x);
      AsksForE(a, q);
      ShiftApart(a, q, r);
    }
  }

  lemma TwoReduces(b: Build, q: nat, sp: nat, r: nat, r': nat)
    requires BuildOk(G, b) && r < r' < |G.rules| && Has(AutomatonOf(b.ss), q, Final(G, r)) && Has(AutomatonOf(b.ss), q, Final(G, r'))
    ensures !(Follows(b.f, q, Final(G, r), sp) && Follows(b.f, q, Final(G, r'), sp))
  {
    hide BuildOk, Bound, Ready;
    Well();
    Follow(b, q, Final(G, r), sp);
    Follow(b, q, Final(G, r'), sp);
    ReducesApart(AutomatonOf(b.ss), q, r, r', sp);
  }

  lemma NoShiftOfStart(b: Build, q: nat, x: nat)
    requires BuildOk(G, b)
    ensures !Moves(AutomatonOf(b.ss), q, 2, x)
  {
    hide BuildOk;
    Parts(G, b);
    StartNotShifted(G, AutomatonOf(b.ss), q, x);
  }

  /** No state calls for two different actions on a symbol. */
  lemma OneAction(b: Build, q: nat)
    requires BuildOk(G, b)
    ensures OneWantedAt(G, AutomatonOf(b.ss), b.f, q)
  {
    hide BuildOk, Follows, Has, Moves;
    forall sp: nat, k: Kind, x: nat, k': Kind, x': nat
      | Wanted(G, AutomatonOf(b.ss), b.f, q, sp, k, x) && Wanted(G, AutomatonOf(b.ss), b.f, q, sp, k', x')
      ensures k == k' && x == x'
    {
      NoShiftOfStart(b, q, x);
      NoShiftOfStart(b, q, x');
      if k.SHIFT? && k'.SHIFT? {
        TwoShifts(b, q, sp, x, x');
      } else if k.SHIFT? && k'.REDUCE? {
        ShiftAndReduce(b, q, sp, x, x');
      } else if k.REDUCE? && k'.SHIFT? {
        ShiftAndReduce(b, q, sp, x', x);
      } else if k.REDUCE? && k'.REDUCE? && x < x' {
        TwoReduces(b, q, sp, x, x');
      } else if k.REDUCE? && k'.REDUCE? && x' < x {
        TwoReduces(b, q, sp, x', x);
      }
    }
  }

  lemma NoConflicts(p: Precedence, b: Build)
    requires BuildOk(G, b) && Decided(G, p, b)
    ensures ConflictFree(b.ap)
  {
    hide BuildOk, OneWantedAt, ListOk, EarliestAt;
    Well();
    forall q: nat | q < |b.ap| ensures forall i :: 0 <= i < |b.ap[q]| ==> Live(b.ap[q][i].kind) {
      assert StateDone(G, p, AutomatonOf(b.ss), b.f, q, b.ap[q]);
      OneAction(b, q);
    }
  }

  // ----- the loop

  /** All rules but the start rule are called for wherever V or I is. */
  ghost predicate Full(a: Automaton, q: nat) {
    forall r: nat :: 0 < r < 6 ==> Has(a, q, Item(r, 0))
  }

  lemma FullFrom(a: Automaton, f: Follow, q: nat, it: Item)
    requires Lr0(G, a) && FollowsClosed(G, a, f) && Has(a, q, it) && Shiftable(G, it) && After(G, it) in {Sym(3), Sym(4), Sym(5)}
    ensures Full(a, q)
  {
    hide Lr0, FollowsClosed;
    Well();
    if After(G, it) == Sym(3) {
      Call(G, a, f, q, it, 1, 0);
      FullRound(a, f, q, Item(1, 0));
    } else {
      FullRound(a, f, q, it);
    }
  }

  lemma FullRound(a: Automaton, f: Follow, q: nat, it: Item)
    requires Lr0(G, a) && FollowsClosed(G, a, f) && Has(a, q, it) && Shiftable(G, it) && After(G, it) in {Sym(4), Sym(5)}
    ensures Full(a, q)
  {
    hide Lr0, FollowsClosed, Follows, FirstSeq, NullableSeq;
    Well();
    if After(G, it) == Sym(4) {
      Call(G, a, f, q, it, 2, 0);
      FullFromA(a, f, q, Item(2, 0));
    } else {
      FullFromA(a, f, q, it);
    }
  }

  lemma FullFromA(a: Automaton, f: Follow, q: nat, it: Item)
    requires Lr0(G, a) && FollowsClosed(G, a, f) && Has(a, q, it) && Shiftable(G, it) && After(G, it) == Sym(5)
    ensures Full(a, q)
  {
    hide Lr0, FollowsClosed, Follows, FirstSeq, NullableSeq;
    Well();
    Call(G, a, f, q, it, 3, 0);
    Call(G, a, f, q, it, 4, 0);
    Call(G, a, f, q, Item(4, 0), 5, 0);
    Call(G, a, f, q, Item(5, 0), 1, 0);
    Call(G, a, f, q, Item(1, 0), 2, 0);
  }

  /** In the first state the end of input follows A. */
  lemma FirstState(a: Automaton, f: Follow)
    requires Lr0(G, a) && FollowsClosed(G, a, f)
    ensures Full(a, 0)
    ensures Follows(f, 0, Item(1, 0), 0) && Follows(f, 0, Item(2, 0), 0) && Follows(f, 0, Item(3, 0), 0)
  {
    Well();
    Nullables();
    assert ClosedAt(G, a, 0, 0);
    hide Lr0;
    assert G.rules[0].rhs[1..] == [] && G.rules[1].rhs[1..] == [Sym(5)] && G.rules[2].rhs[1..] == [];
    FullFrom(a, f, 0, Item(0, 0));
    Call(G, a, f, 0, Item(0, 0), 1, 0);
    Call(G, a, f, 0, Item(1, 0), 2, 0);
    Call(G, a, f, 0, Item(2, 0), 3, 0);
  }

  /** The states after A and after I, and the state after I A. */
  ghost predicate Targets(a: Automaton, f: Follow, q1: nat, q3: nat, q7: nat) {
    && Goes(a, 0, Sym(5), q1) && Has(a, q1, Item(2, 1)) && Follows(f, q1, Item(2, 1), 0) && q1 < |a.items|
    && Goes(a, 0, Sym(4), q3) && Has(a, q3, Item(1, 1)) && Full(a, q3) && Follows(f, q3, Item(3, 0), 0) && q3 < |a.items|
    && Goes(a, q3, Sym(5), q7) && Has(a, q7, Item(2, 1))
  }

  lemma FindTargets(a: Automaton, f: Follow) returns (q1: nat, q3: nat, q7: nat)
    requires Lr0(G, a) && FollowsClosed(G, a, f)
    ensures Targets(a, f, q1, q3, q7)
  {
    hide Lr0, FollowsClosed;
    Well();
    FirstState(a, f);
    q1 := GoOn(G, a, 0, Item(2, 0));
    Carry(G, a, f, 0, Item(2, 0), q1, 0);
    q3 := GoOn(G, a, 0, Item(1, 0));
    Carry(G, a, f, 0, Item(1, 0), q3, 0);
    FullFrom(a, f, q3, Item(1, 1));
    assert G.rules[1].rhs[2..] == [];
    Call(G, a, f, q3, Item(1, 1), 3, 0);
    q7 := GoOn(G, a, q3, Item(2, 0));
  }

  lemma WhoAsks(it: Item)
    requires Shiftable(G, it)
    ensures After(G, it) == Sym(5) ==> it == Item(1, 1) || it == Item(2, 0)
    ensures After(G, it) == Sym(4) ==> it == Item(1, 0) || it == Item(5, 2) || it == Item(5, 3)
  {
    Well();
  }

  /** Behind E V I the token e may follow I. */
  lemma BehindEVI(a: Automaton, f: Follow) returns (k8: nat, q: nat)
    requires Lr0(G, a) && FollowsClosed(G, a, f)
    ensures Has(a, k8, Item(1, 1)) && Has(a, k8, Item(2, 0)) && Goes(a, k8, Sym(5), q) && Follows(f, q, Item(2, 1), 1)
  {
    hide Lr0, FollowsClosed, Follows;
    Well();
    FirstState(a, f);
    var k2 := GoOn(G, a, 0, Item(5, 0));
    var k6 := GoOn(G, a, k2, Item(5, 1));
    FullFrom(a, f, k6, Item(5, 2));
    k8 := GoOn(G, a, k6, Item(5, 2));
    Carry(G, a, f, k6, Item(1, 0), k8, 0);
    assert G.rules[5].rhs[4..] == [Sym(1)];
    assert BeginsAt(G, [Sym(1)], 0, 1, 0);
    Call(G, a, f, k8, Item(5, 3), 2, 1);
    q := GoOn(G, a, k8, Item(2, 0));
    Carry(G, a, f, k8, Item(2, 0), q, 1);
  }

  /** ... and from there A leads to the same state as behind I. */
  lemma TokenFollows(b: Build, q1: nat, q3: nat, q7: nat)
    requires BuildOk(G, b) && Targets(AutomatonOf(b.ss), b.f, q1, q3, q7)
    ensures Follows(b.f, q7, Item(2, 1), 1)
  {
    hide BuildOk, Follows, Lr0, FollowsClosed, FollowsLeast, LeastItems, AllReached, AllStates, ListsOk;
    Parts(G, b);
    var a := AutomatonOf(b.ss);
    var k8, q := BehindEVI(a, b.f);
    forall it | Shiftable(G, it) && After(G, it) == Sym(5) ensures Has(a, q3, it) <==> Has(a, k8, it) {
      WhoAsks(it);
    }
    SameTarget(G, b.ss, q3, k8, Sym(5), q7, q);
  }

  /** From the state after I, I leads back to it. */
  lemma RoundTrip(b: Build, q1: nat, q3: nat, q7: nat)
    requires BuildOk(G, b) && Targets(AutomatonOf(b.ss), b.f, q1, q3, q7)
    ensures Goes(AutomatonOf(b.ss), q3, Sym(4), q3)
  {
    hide BuildOk, Follows, Lr0, FollowsClosed, FollowsLeast, LeastItems, AllReached, AllStates, ListsOk;
    Parts(G, b);
    Well();
    var a := AutomatonOf(b.ss);
    FirstState(a, b.f);
    var q := GoOn(G, a, q3, Item(1, 0));
    forall it | Shiftable(G, it) && After(G, it) == Sym(4) ensures Has(a, 0, it) <==> Has(a, q3, it) {
      WhoAsks(it);
      if it.dot >= 2 {
        NotDotted(a, q3, it);
      }
    }
    SameTarget(G, b.ss, 0, q3, Sym(4), q3, q);
  }

  lemma NotDotted(a: Automaton, q3: nat, it: Item)
    requires Ready(a) && Goes(a, 0, Sym(4), q3) && it.dot >= 2
    ensures !Has(a, 0, it) && !Has(a, q3, it)
  {
    NotFromFirst(a, Sym(4), q3, it.rule, it.dot);
    assert WfAt(G, a, 0, it);
  }

  /** The entries the run meets. */
  ghost predicate LoopEntries(tb: Table, q1: nat, q3: nat, q7: nat) {
    && Lookup(tb, 0, 1) == Reduce(3) && Lookup(tb, q1, 1) == Reduce(2) && Lookup(tb, q3, 1) == Reduce(3) && Lookup(tb, q7, 1) == Reduce(2)
    && Lookup(tb, 0, 5) == Shift(q1) && Lookup(tb, 0, 4) == Shift(q3) && Lookup(tb, q3, 5) == Shift(q7) && Lookup(tb, q3, 4) == Shift(q3)
  }

  /** The state after A has nothing but I ::= A . */
  lemma AfterA(a: Automaton, q1: nat, it: Item)
    requires Ready(a) && LeastItems(G, a) && Goes(a, 0, Sym(5), q1) && Has(a, q1, it)
    ensures it == Item(2, 1)
  {
    Well();
    forall i | Has(a, q1, i) && Kernel(G, q1, i) ensures i == Item(2, 1) {
      NoWayBack(G, a, 0, 5, q1);
      Back(G, a, 0, Sym(5), q1, i);
      assert WfAt(G, a, 0, Item(i.rule, i.dot - 1));
    }
    FromKernel(G, a, q1, {Item(2, 1)});
  }

  /** A state without e behind a dot does not move on it. */
  lemma NoMove(a: Automaton, q: nat)
    requires Ready(a) && !Has(a, q, Item(5, 4))
    ensures forall q' :: !Moves(a, q, 1, q')
  {
    Well();
    forall q': nat ensures !Moves(a, q, 1, q') {
      if Moves(a, q, 1, q') {
        SymMove(G, a, q, 1, q');
        AsksForE(a, q);
      }
    }
  }

  lemma ThreeDefaults(b: Build, q1: nat, q3: nat, q7: nat)
    requires BuildOk(G, b) && ConflictFree(b.ap) && Targets(AutomatonOf(b.ss), b.f, q1, q3, q7)
    ensures var tb := DefaultTable(G, b); Lookup(tb, 0, 1) == Reduce(3) && Lookup(tb, q1, 1) == Reduce(2) && Lookup(tb, q3, 1) == Reduce(3)
  {
    hide BuildOk, ConflictFree, Lookup, DefaultTable, Lr0, FollowsClosed, FollowsLeast, LeastItems, AllReached, AllStates, ListsOk;
    Parts(G, b);
    Well();
    var a := AutomatonOf(b.ss);
    FirstState(a, b.f);
    EmptyInFirst(a);
    OnlyReduce(G, b, 0, 3, 0, 1);
    OnlyAfterA(a, q1);
    OnlyReduce(G, b, q1, 2, 0, 1);
    EmptyAfterI(a, q3);
    OnlyReduce(G, b, q3, 3, 0, 1);
  }

  lemma EmptyInFirst(a: Automaton)
    requires Ready(a)
    ensures forall r: nat :: r < 6 && Has(a, 0, Final(G, r)) ==> r == 3
    ensures forall q' :: !Moves(a, 0, 1, q')
  {
    Well();
    forall r: nat | r < 6 && Has(a, 0, Final(G, r)) ensures r == 3 {
      FirstHasNoDot(a, 0, Final(G, r));
    }
    assert WfAt(G, a, 0, Item(5, 4));
    NoMove(a, 0);
  }

  lemma OnlyAfterA(a: Automaton, q1: nat)
    requires Ready(a) && LeastItems(G, a) && Goes(a, 0, Sym(5), q1)
    ensures forall r: nat :: r < 6 && Has(a, q1, Final(G, r)) ==> r == 2
    ensures forall q' :: !Moves(a, q1, 1, q')
  {
    Well();
    forall r: nat | r < 6 && Has(a, q1, Final(G, r)) ensures r == 2 {
      AfterA(a, q1, Final(G, r));
    }
    NotFromFirst(a, Sym(5), q1, 5, 4);
    NoMove(a, q1);
  }

  lemma EmptyAfterI(a: Automaton, q3: nat)
    requires Ready(a) && Goes(a, 0, Sym(4), q3)
    ensures forall r: nat :: r < 6 && Has(a, q3, Final(G, r)) ==> r == 3
    ensures forall q' :: !Moves(a, q3, 1, q')
  {
    Well();
    forall r: nat | r < 6 && Has(a, q3, Final(G, r)) ensures r == 3 {
      if Final(G, r).dot > 0 {
        Back(G, a, 0, Sym(4), q3, Final(G, r));
        FirstHasNoDot(a, 0, Item(r, Final(G, r).dot - 1));
      }
    }
    NotFromFirst(a, Sym(4), q3, 5, 4);
    NoMove(a, q3);
  }

  lemma FindEntries(b: Build) returns (q1: nat, q3: nat, q7: nat)
    requires BuildOk(G, b) && ConflictFree(b.ap)
    ensures LoopEntries(DefaultTable(G, b), q1, q3, q7)
  {
    hide BuildOk, ConflictFree, Lookup, DefaultTable, Lr0, FollowsClosed, FollowsLeast, LeastItems, AllReached, AllStates, ListsOk;
    Parts(G, b);
    Well();
    q1, q3, q7 := FindTargets(AutomatonOf(b.ss), b.f);
    ThreeDefaults(b, q1, q3, q7);
    TokenFollows(b, q1, q3, q7);
    ReduceIs(G, b, q7, 2, 1);
    RoundTrip(b, q1, q3, q7);
    GotoIs(G, b, 0, 5, q1);
    GotoIs(G, b, 0, 4, q3);
    GotoIs(G, b, q3, 5, q7);
    GotoIs(G, b, q3, 4, q3);
  }

  /** On e with I on top: one more I, after two steps. */
  lemma OneMore(tb: Table, q1: nat, q3: nat, q7: nat, p: Parser) returns (p': Parser, p'': Parser)
    requires LoopEntries(tb, q1, q3, q7) && p.stack != [] && p.stack[|p.stack| - 1] == Entry(Shift(q3), 4)
    ensures StreamStep(G, tb, Running(p, [1])) == Running(p', [1]) && StreamStep(G, tb, Running(p', [1])) == Running(p'', [1])
    ensures p''.stack != [] && p''.stack[|p''.stack| - 1] == Entry(Shift(q3), 4)
  {
    Well();
    assert p.stack[..|p.stack| - 0] == p.stack;
    p' := p.(stack := p.stack + [Entry(Shift(q7), 5)], trail := [3] + p.trail);
    assert ReduceStep(G, tb, p, 3) == Again(p');
    assert p'.stack[..|p'.stack| - 1] == p.stack;
    p'' := p'.(stack := p.stack + [Entry(Shift(q3), 4)], trail := [2] + p'.trail);
    assert ReduceStep(G, tb, p', 2) == Again(p'');
  }

  lemma {:induction false} MoreAndMore(tb: Table, q1: nat, q3: nat, q7: nat, p: Parser, n: nat)
    requires LoopEntries(tb, q1, q3, q7) && p.stack != [] && p.stack[|p.stack| - 1] == Entry(Shift(q3), 4)
    ensures Run(G, tb, Running(p, [1]), n).Running?
    decreases n
  {
    hide LoopEntries, StreamStep;
    var p', p'' := OneMore(tb, q1, q3, q7, p);
    if n >= 2 {
      MoreAndMore(tb, q1, q3, q7, p'', n - 2);
      assert Run(G, tb, Running(p, [1]), n) == Run(G, tb, Running(p', [1]), n - 1) == Run(G, tb, Running(p'', [1]), n - 2);
    }
  }

  lemma FirstSteps(tb: Table, q1: nat, q3: nat, q7: nat, n: nat)
    requires LoopEntries(tb, q1, q3, q7)
    ensures Run(G, tb, Running(Fresh, [1]), n).Running?
  {
    Well();
    var p1 := Fresh.(stack := [Bottom] + [Entry(Shift(q1), 5)], trail := [3]);
    var p2 := p1.(stack := [Bottom] + [Entry(Shift(q3), 4)], trail := [2] + p1.trail);
    assert Fresh.stack[..1] == [Bottom] && [3] + [] == [3];
    assert ReduceStep(G, tb, Fresh, 3) == Again(p1);
    assert p1.stack[..1] == [Bottom];
    assert ReduceStep(G, tb, p1, 2) == Again(p2);
    if n >= 2 {
      MoreAndMore(tb, q1, q3, q7, p2, n - 2);
      assert Run(G, tb, Running(Fresh, [1]), n) == Run(G, tb, Running(p1, [1]), n - 1) == Run(G, tb, Running(p2, [1]), n - 2);
    }
  }

  /** lemon finds no conflict in this grammar, yet on the token e its parser puts one I after the other on the stack, for
      ever, waiting for what V should derive. */
  lemma FreeButNeverHalts(p: Precedence, b: Build, n: nat)
    requires BuildOk(G, b) && Decided(G, p, b)
    ensures ConflictFree(b.ap) && Run(G, FinalTable(G, b), Running(Fresh, [1]), n).Running?
  {
    hide BuildOk, Decided, ConflictFree, Run, LoopEntries;
    NoConflicts(p, b);
    var q1, q3, q7 := FindEntries(b);
    Well();
    forall m: nat ensures Run(G, DefaultTable(G, b), Running(Fresh, [1]), m).Running? {
      FirstSteps(DefaultTable(G, b), q1, q3, q7, m);
    }
    NeverHaltsEither(G, b, [1], n);
  }

  lemma {:induction false} NoTreeOfV(t: Tree)
    requires ValidTree(G, t)
    ensures Root(G, t) != 6
    decreases t
  {
    Well();
    if t.Node? && t.rule == 5 {
      assert Fits(Roots(G, t.kids)[1], Sym(6));
      assert ValidForest(G, t.kids[1..]);
      NoTreeOfV(t.kids[1]);
    }
  }

  lemma VIsReachable()
    ensures Reachable(G, 5) && Reachable(G, 6)
  {
    hide Reachable, WfGrammar, StartIsFresh, NoClasses, PlainClasses;
    Well();
    StartReachable(G);
    assert G.rules[0].rhs[0] == Sym(3) && G.rules[1].rhs[1] == Sym(5) && G.rules[4].rhs[0] == Sym(6);
    ReachMore(G, 0, 3);
    ReachMore(G, 1, 5);
    ReachMore(G, 4, 6);
  }

  /** V is in use and derives no string of tokens. */
  lemma NotUseful()
    ensures Reachable(G, 6) && !Alive(G, Sym(6)) && !Useful(G)
  {
    hide Reachable, ValidTree;
    Well();
    VIsReachable();
    forall t | ValidTree(G, t) ensures !Fits(Root(G, t), Sym(6)) {
      NoTreeOfV(t);
    }
    assert !Alive(G, G.rules[4].rhs[0]);
  }

  lemma {:induction false} FreeCounts(ap: seq<seq<Action>>)
    requires ConflictFree(ap)
    ensures TotalConflicts(ap) == 0
    decreases |ap|
  {
    if ap != [] {
      NoConflictsYet(ap[|ap| - 1]);
      FreeCounts(ap[..|ap| - 1]);
    }
  }

  /** What lemon makes of this grammar. */
  method Generated() returns (b: Build, conflicts: nat)
    ensures BuildOk(G, b) && conflicts == 0 && forall n: nat :: Run(G, FinalTable(G, b), Running(Fresh, [1]), n).Running?
  {
    hide BuildOk, Decided, ParserRight, Run, FinalTable, ConflictFree;
    Well();
    NeverTiedWithout(G);
    var num, ok, t;
    b, conflicts, num, ok, t := Generate(G, NoPrecedence, []);
    forall n: nat ensures Run(G, FinalTable(G, b), Running(Fresh, [1]), n).Running? {
      FreeButNeverHalts(NoPrecedence, b, n);
    }
    NoConflicts(NoPrecedence, b);
    FreeCounts(b.ap);
  }
}
