/** A grammar whose last state has no entry on any token: lemon (tools/lemon/lemon.c) leaves it out of
    yy_shift_ofst, and the driver comes there. */
module TrimmedStates {
  import opened Grammars
  import opened FirstSets
  import opened Driver
  import opened LrTheory
  import opened Termination
  import opened States
  import opened FollowSets
  import opened Conflicts
  import opened ActionLists
  import opened Compress
  import opened Simulation
  import opened UnitRules
  import opened Resort
  import opened Packed
  import opened Generator
  import opened BuildFacts

  // Symbols: 0 end of input, 1 c, 2 d, 3 S, 4 C, 5 D, 6 E.

  /** S ::= C.  C ::= C D.  C ::= c.  D ::= d E.  E ::= . */
  const G := Grammar(3, 7, 3, [Rule(3, [Sym(4)]), Rule(4, [Sym(4), Sym(5)]), Rule(4, [Sym(1)]), Rule(5, [Sym(2), Sym(6)]), Rule(6, [])])

  lemma Well()
    ensures WfGrammar(G) && StartIsFresh(G) && NoClasses(G) && |G.rules| == 5
    ensures G.rules[0] == Rule(3, [Sym(4)]) && G.rules[1] == Rule(4, [Sym(4), Sym(5)]) && G.rules[2] == Rule(4, [Sym(1)])
    ensures G.rules[3] == Rule(5, [Sym(2), Sym(6)]) && G.rules[4] == Rule(6, [])
  {
    forall i | 0 <= i < 5 ensures WfRule(G, G.rules[i]) && Sym(3) !in G.rules[i].rhs && forall x :: x in G.rules[i].rhs ==> x.Sym? {
    }
  }

  ghost predicate Ready(a: Automaton) {
    Lr0(G, a) && LeastItems(G, a) && AllReached(a)
  }

  lemma IsReady(b: Build)
    requires BuildOk(G, b)
    ensures Ready(AutomatonOf(b.ss))
  {
    hide BuildOk;
    Parts(G, b);
  }

  // ----- the state behind C d

  /** It has D ::= d . E and E ::= . and nothing else. */
  ghost predicate BehindD(a: Automaton, q: nat) {
    && q < |a.items| && q != 0 && Has(a, q, Item(3, 1)) && Has(a, q, Item(4, 0))
    && a.items[q] <= {Item(3, 1), Item(4, 0)}
  }

  lemma FindState(a: Automaton) returns (qa: nat, qd: nat)
    requires Ready(a)
    ensures BehindD(a, qd) && Goes(a, 0, Sym(4), qa) && Goes(a, qa, Sym(2), qd) && qa != 0 && Has(a, qa, Item(1, 1))
  {
    Well();
    assert ClosedAt(G, a, 0, 0);
    RulesThere(G, a, 0, Item(0, 0), 1);
    qa := GoOn(G, a, 0, Item(1, 0));
    RulesThere(G, a, qa, Item(1, 1), 3);
    qd := GoOn(G, a, qa, Item(3, 0));
    RulesThere(G, a, qd, Item(3, 1), 4);
    assert Fits(2, Sym(2)) && Fits(4, Sym(4));
    NoWayBack(G, a, 0, 4, qa);
    NoWayBack(G, a, qa, 2, qd);
    OnlyBehindD(a, qa, qd);
  }

  lemma OnlyBehindD(a: Automaton, qa: nat, qd: nat)
    requires Ready(a) && Goes(a, qa, Sym(2), qd) && qd != 0 && qd < |a.items|
    ensures a.items[qd] <= {Item(3, 1), Item(4, 0)}
  {
    Well();
    forall it | Has(a, qd, it) && Kernel(G, qd, it) ensures it == Item(3, 1) {
      Back(G, a, qa, Sym(2), qd, it);
    }
    FromKernel(G, a, qd, {Item(3, 1), Item(4, 0)});
  }

  lemma AsksOnlyE(a: Automaton, q: nat)
    requires BehindD(a, q)
    ensures forall c: nat :: Asks(G, a, q, Sym(c)) ==> c == 6
    ensures forall r: nat :: r < 5 && Has(a, q, Final(G, r)) ==> r == 4
  {
    Well();
    forall c: nat | Asks(G, a, q, Sym(c)) ensures c == 6 {
      var it :| Has(a, q, it) && Shiftable(G, it) && After(G, it) == Sym(c);
      assert it in {Item(3, 1), Item(4, 0)};
    }
    forall r: nat | r < 5 && Has(a, q, Final(G, r)) ensures r == 4 {
      assert Final(G, r) in {Item(3, 1), Item(4, 0)};
    }
  }

  /** A live action of that state that is not the default is the goto on E. */
  lemma OnlyGoto(b: Build, q: nat, x: Action)
    requires BuildOk(G, b) && BehindD(AutomatonOf(b.ss), q) && q < |b.ap3| && x in b.ap3[q] && Emitted(x.kind) && x.sp < 7
    ensures x.sp == 6
  {
    hide BuildOk, Lr0, LeastItems, AllReached, FollowsClosed, Follows, FollowsLeast, AllStates, Asks, Moves, Has, ListsOk;
    Parts(G, b);
    Well();
    var a := AutomatonOf(b.ss);
    AsksOnlyE(a, q);
    var y := FinalAction(G, b, q, x);
    if y.kind.SHIFT? {
      SymMove(G, a, q, y.sp, y.arg);
    } else if y.kind.REDUCE? {
      DefaultFinal(b, q);
    }
  }

  lemma DefaultFinal(b: Build, q: nat)
    requires BuildOk(G, b) && BehindD(AutomatonOf(b.ss), q) && q < |b.ap| == |b.best|
    ensures b.best[q].Some? ==> b.best[q].value == 4
  {
    hide BuildOk, CompressedAt, BehindD;
    Well();
    Facts(G, b, q);
    AsksOnlyE(AutomatonOf(b.ss), q);
  }

  lemma CountsBehindD(b: Build, q: nat)
    requires BuildOk(G, b) && BehindD(AutomatonOf(b.ss), q) && q < |b.ap3|
    ensures Size(G, true, b.ap3[q]) == 0 && Size(G, false, b.ap3[q]) <= 1
  {
    hide BuildOk, BehindD, Size;
    forall x | x in b.ap3[q] && Emitted(x.kind) && x.sp < 7 ensures x.sp == 6 {
      OnlyGoto(b, q, x);
    }
    Counted(G, true, b.ap3[q]);
    ListsThere(G, b);
    hide OneEmitted, DistinctIds;
    CountedOnce(G, false, b.ap3[q], 6);
  }

  /** A state with something to go to over a nonterminal does not only reduce. */
  lemma NotAuto(b: Build, q: nat, it: Item, c: nat)
    requires BuildOk(G, b) && q < |b.ap| == |b.autos|
    requires Has(AutomatonOf(b.ss), q, it) && Shiftable(G, it) && After(G, it) == Sym(c) && 3 <= c < 7
    ensures b.autos[q].None?
  {
    hide BuildOk;
    Parts(G, b);
    Well();
    var a := AutomatonOf(b.ss);
    var q' := GoOn(G, a, q, it);
    assert Fits(c, Sym(c)) && Moves(a, q, c, q');
    hide Lr0;
    NonterminalShiftLive(G, a, b.f, b.ap, q, c, q');
    var x :| x in b.ap[q] && (x.kind.SHIFT? || x.kind.ACCEPT?) && x.sp == c;
    var i :| 0 <= i < |b.ap[q]| && b.ap[q][i] == x;
    assert ListOk(G, a, b.f, q, b.ap[q]);
    assert Wanted(G, a, b.f, q, x.sp, x.kind, x.arg);
    AutosHaveNoShift(b, q);
  }

  lemma AutosHaveNoShift(b: Build, q: nat)
    requires BuildOk(G, b) && q < |b.ap| == |b.autos|
    ensures b.autos[q].Some? ==> forall x :: x in b.ap[q] ==> !x.kind.SHIFT?
  {
  }

  // ----- the other states

  /** Behind the first state, only rules of D and E start. */
  lemma StartsLater(a: Automaton, q: nat, it: Item)
    requires Ready(a) && q != 0 && Has(a, q, it)
    ensures it.rule < 5 && (it.dot > 0 || it.rule >= 3)
  {
    Well();
    var s := set x | x in a.items[q] && x.rule < 5 && (x.dot > 0 || x.rule >= 3);
    forall x | Has(a, q, x) && Kernel(G, q, x) ensures x in s {
      assert WfAt(G, a, q, x);
    }
    forall x, r: nat | x in s && Has(a, q, x) && CallsRule(G, x, r) ensures Item(r, 0) in s {
      RulesThere(G, a, q, x, r);
    }
    FromKernel(G, a, q, s);
  }

  /** Two rules that are complete in a state are the same. */
  lemma OneFinal(a: Automaton, q: nat, r: nat, r': nat)
    requires Ready(a) && q != 0 && r < 5 && r' < 5 && Has(a, q, Final(G, r)) && Has(a, q, Final(G, r'))
    ensures r == r'
  {
    Well();
    if r != 4 && r' != 4 {
      var q0, x := OneBefore(G, a, q, Final(G, r));
    } else if r != r' {
      AsksForE(a, q);
      var q0, x := OneBefore(G, a, q, Item(3, 1));
    }
  }

  lemma AsksForE(a: Automaton, q: nat)
    requires Ready(a) && Has(a, q, Item(4, 0))
    ensures Has(a, q, Item(3, 1))
  {
    Well();
    assert GroundedAt(G, a, q, 4);
    var it :| Has(a, q, it) && Shiftable(G, it) && After(G, it) == Sym(6);
  }

  /** A state that is kept and has an entry on a token asks for D. */
  lemma AsksForD(b: Build, q: nat, x: Action)
    requires BuildOk(G, b) && q != 0 && q < |b.ap3| && x in b.ap3[q] && Belongs(G, true, x)
    ensures Has(AutomatonOf(b.ss), q, Item(1, 1))
  {
    hide BuildOk, Lr0, LeastItems, AllReached, FollowsClosed, Follows;
    Parts(G, b);
    Well();
    var a := AutomatonOf(b.ss);
    var y := FinalAction(G, b, q, x);
    if y.kind.SHIFT? {
      SymMove(G, a, q, y.sp, y.arg);
      ShiftsD(a, q, y.sp);
    } else {
      if b.best[q].Some? {
        Facts(G, b, q);
        OneFinal(a, q, y.arg, b.best[q].value);
      } else {
        StartIsComplete(a, q);
      }
    }
  }

  lemma ShiftsD(a: Automaton, q: nat, t: nat)
    requires Ready(a) && q != 0 && t < 3 && Asks(G, a, q, Sym(t))
    ensures Has(a, q, Item(1, 1))
  {
    Well();
    var it :| Has(a, q, it) && Shiftable(G, it) && After(G, it) == Sym(t);
    StartsLater(a, q, it);
    assert it == Item(3, 0);
    assert GroundedAt(G, a, q, 3);
    var src :| Has(a, q, src) && Shiftable(G, src) && After(G, src) == Sym(5);
  }

  /** With S ::= C . there is C ::= C . D. */
  lemma StartIsComplete(a: Automaton, q: nat)
    requires Ready(a) && Has(a, q, Item(0, 1))
    ensures Has(a, q, Item(1, 1))
  {
    Well();
    var q0, x := OneBefore(G, a, q, Item(0, 1));
    assert GroundedAt(G, a, q0, 0);
    assert q0 == 0;
    RulesThere(G, a, 0, Item(0, 0), 1);
    assert ForwardAt(G, a, 0, Item(1, 0));
  }

  lemma CountsWithD(b: Build, q: nat)
    requires BuildOk(G, b) && q < |b.ap3| && Has(AutomatonOf(b.ss), q, Item(1, 1))
    ensures Size(G, false, b.ap3[q]) > 0
  {
    hide BuildOk;
    Parts(G, b);
    Well();
    var q' := GoOn(G, AutomatonOf(b.ss), q, Item(1, 1));
    assert Fits(5, Sym(5)) && Moves(AutomatonOf(b.ss), q, 5, q');
    hide Lr0;
    var x := GotoKept(G, b, q, 5, q');
    Counted(G, false, b.ap3[q]);
  }

  /** From the state behind C d on, no state has an entry on a token. */
  lemma NoTokensFrom(b: Build, num: Numbering, qd: nat, j: nat)
    requires BuildOk(G, b) && Resorted(G, b.ap3, b.autos, num) && BehindD(AutomatonOf(b.ss), qd) && qd < |b.ap3| == |b.autos|
    requires Size(G, true, b.ap3[qd]) == 0 && Size(G, false, b.ap3[qd]) <= 1 && num.statenum[qd] <= j < num.nxstate
    ensures Size(G, true, b.ap3[num.sorted[j]]) == 0
  {
    hide BuildOk, Size;
    var i := num.statenum[qd];
    assert num.sorted[i] == qd && 0 < i;
    var q := num.sorted[j];
    assert q != 0 by {
      assert num.statenum[q] == j && num.statenum[num.sorted[0]] == 0;
    }
    if Size(G, true, b.ap3[q]) > 0 {
      assert i < j;
      assert ResortCmp(CountsOf(G, b.ap3, num.sorted[i]), CountsOf(G, b.ap3, num.sorted[j])) < 0;
      SomeToken(b, q);
    }
  }

  lemma SomeToken(b: Build, q: nat)
    requires BuildOk(G, b) && q != 0 && q < |b.ap3| && Size(G, true, b.ap3[q]) > 0
    ensures Size(G, false, b.ap3[q]) > 0
  {
    hide BuildOk, Size;
    Counted(G, true, b.ap3[q]);
    var x :| x in b.ap3[q] && Belongs(G, true, x);
    AsksForD(b, q, x);
    CountsWithD(b, q);
  }

  lemma LookupFails(num: Numbering, ap: seq<seq<Action>>, t: Tables, i: nat, tok: nat)
    requires TablesFor(G, num, ap, t) && i < num.nxstate
    requires forall j: nat :: i <= j < num.nxstate ==> Size(G, true, ap[num.sorted[j]]) == 0
    ensures !LastHasToken(G, num, ap) && FindShift(t, tok, i) == -1
  {
    hide Size, ShiftRight, GotoRight, Entries;
  }

  lemma DropsNone(b: Build, num: Numbering, q: nat)
    requires Resorted(G, b.ap3, b.autos, num) && q < |b.ap3| == |b.autos| && b.autos[q].None?
    ensures ValidNumbering(num, |b.ap3|) && num.statenum[q] < num.nxstate
  {
  }

  /** Whatever the build: the state behind C d is kept, but it is missing from yy_shift_ofst, and looking up any token in
      it fails. */
  lemma StateMissing(b: Build, num: Numbering, t: Tables, tok: nat) returns (qa: nat, qd: nat)
    requires BuildOk(G, b) && Resorted(G, b.ap3, b.autos, num) && TablesFor(G, num, b.ap3, t)
    ensures !LastHasToken(G, num, b.ap3) && Goes(AutomatonOf(b.ss), 0, Sym(4), qa) && Goes(AutomatonOf(b.ss), qa, Sym(2), qd)
    ensures qd < |num.statenum| && num.statenum[qd] < num.nxstate && FindShift(t, tok, num.statenum[qd]) == -1
  {
    hide BuildOk, Resorted, TablesFor, LastHasToken, Ready, Lr0, LeastItems, AllReached, FollowsClosed, FollowsLeast, AllStates, ListsOk,
      BehindD;
    IsReady(b);
    qa, qd := FindState(AutomatonOf(b.ss));
    Parts(G, b);
    assert qd < |b.ap3| by {
      assert BehindD(AutomatonOf(b.ss), qd);
    }
    CountsBehindD(b, qd);
    assert Has(AutomatonOf(b.ss), qd, Item(3, 1)) by {
      assert BehindD(AutomatonOf(b.ss), qd);
    }
    Well();
    NotAuto(b, qd, Item(3, 1), 6);
    DropsNone(b, num, qd);
    forall j: nat | num.statenum[qd] <= j < num.nxstate ensures Size(G, true, b.ap3[num.sorted[j]]) == 0 {
      NoTokensFrom(b, num, qd, j);
    }
    LookupFails(num, b.ap3, t, num.statenum[qd], tok);
  }

  // ----- the driver comes there

  /** D begins with d, so d follows c. */
  lemma DBegins()
    ensures FirstSeq(G, [Sym(5)], 2)
  {
    Well();
    assert BeginsAt(G, G.rules[3].rhs, 0, 2, 0);
    assert RuleBegins(G, 3, 0, 5, 2, 1);
    assert BeginsAt(G, [Sym(5)], 0, 2, 1);
  }

  lemma BehindC(a: Automaton, f: Follow) returns (qc: nat)
    requires Ready(a) && FollowsClosed(G, a, f)
    ensures Goes(a, 0, Sym(1), qc) && Has(a, qc, Item(2, 1)) && Follows(f, qc, Item(2, 1), 2) && qc < |a.items| && qc != 0
  {
    hide FirstSeq;
    Well();
    assert ClosedAt(G, a, 0, 0);
    RulesThere(G, a, 0, Item(0, 0), 1);
    DBegins();
    assert G.rules[1].rhs[1..] == [Sym(5)];
    Call(G, a, f, 0, Item(1, 0), 2, 2);
    qc := GoOn(G, a, 0, Item(2, 0));
    Carry(G, a, f, 0, Item(2, 0), qc, 2);
    assert Fits(1, Sym(1)) && Moves(a, 0, 1, qc);
    NoWayBack(G, a, 0, 1, qc);
  }

  /** Only C ::= c is in that state. */
  lemma OnlyC(a: Automaton, qc: nat, it: Item)
    requires Ready(a) && Goes(a, 0, Sym(1), qc) && qc != 0 && Has(a, qc, it)
    ensures it == Item(2, 1)
  {
    Well();
    assert TightAt(G, a, 0, Sym(1), qc);
    forall x | Has(a, qc, x) && Kernel(G, qc, x) ensures x == Item(2, 1) {
      Back(G, a, 0, Sym(1), qc, x);
      assert WfAt(G, a, 0, Item(x.rule, x.dot - 1));
    }
    FromKernel(G, a, qc, {Item(2, 1)});
  }

  /** The entry of a token on which one action is wanted. */
  lemma OnlyWanted(b: Build, q: nat, c: nat, kind: Kind, arg: nat)
    requires BuildOk(G, b) && q < |b.ap| && Wanted(G, AutomatonOf(b.ss), b.f, q, c, kind, arg)
    requires forall k: Kind, x: nat :: Wanted(G, AutomatonOf(b.ss), b.f, q, c, k, x) ==> k == kind && x == arg
    ensures Lookup(DefaultTable(G, b), q, c) == Decode(G, Action(c, kind, arg, 0))
  {
    hide BuildOk, Wanted, Lookup, RawTable, DefaultTable;
    var x := LiveEntry(G, b, q, c, kind, arg);
    Facts(G, b, q);
  }

  lemma ShiftsC(b: Build, qc: nat)
    requires BuildOk(G, b) && Goes(AutomatonOf(b.ss), 0, Sym(1), qc)
    ensures Lookup(DefaultTable(G, b), 0, 1) == Shift(qc)
  {
    hide BuildOk, Follows, FollowsClosed, FollowsLeast, AllStates, ListsOk, LeastItems, AllReached;
    Well();
    Parts(G, b);
    var a := AutomatonOf(b.ss);
    assert Fits(1, Sym(1)) && Moves(a, 0, 1, qc);
    forall k: Kind, x: nat | Wanted(G, a, b.f, 0, 1, k, x) ensures k == SHIFT && x == qc {
      if k.SHIFT? {
        SymMove(G, a, 0, 1, x);
      } else if k.REDUCE? {
        FirstEmpties(a, x);
      }
    }
    hide Lr0;
    OnlyWanted(b, 0, 1, SHIFT, qc);
  }

  /** No rule is complete in the first state. */
  lemma FirstEmpties(a: Automaton, r: nat)
    requires Lr0(G, a) && r < 5
    ensures !Has(a, 0, Final(G, r))
  {
    Well();
    forall it | Has(a, 0, it) && Shiftable(G, it) ensures After(G, it) != Sym(6) {
      assert WfAt(G, a, 0, it);
    }
    assert WfAt(G, a, 0, Final(G, r)) && GroundedAt(G, a, 0, 4);
  }

  lemma ReducesC(b: Build, qc: nat)
    requires BuildOk(G, b) && Goes(AutomatonOf(b.ss), 0, Sym(1), qc) && qc != 0
    requires Has(AutomatonOf(b.ss), qc, Item(2, 1)) && Follows(b.f, qc, Item(2, 1), 2)
    ensures Lookup(DefaultTable(G, b), qc, 2) == Reduce(2)
  {
    hide BuildOk, Follows, FollowsClosed, FollowsLeast, AllStates, ListsOk, LeastItems, AllReached;
    Well();
    Parts(G, b);
    IsReady(b);
    var a := AutomatonOf(b.ss);
    forall k: Kind, x: nat | Wanted(G, a, b.f, qc, 2, k, x) ensures k == REDUCE && x == 2 {
      if k.SHIFT? {
        SymMove(G, a, qc, 2, x);
        var it :| Has(a, qc, it) && Shiftable(G, it) && After(G, it) == Sym(2);
        OnlyC(a, qc, it);
      } else {
        OnlyC(a, qc, Final(G, x));
      }
    }
    hide Lr0;
    OnlyWanted(b, qc, 2, REDUCE, 2);
  }

  lemma ShiftsDHere(b: Build, qa: nat, qd: nat)
    requires BuildOk(G, b) && Goes(AutomatonOf(b.ss), 0, Sym(4), qa) && qa != 0 && Goes(AutomatonOf(b.ss), qa, Sym(2), qd)
    ensures Lookup(DefaultTable(G, b), qa, 2) == Shift(qd)
  {
    hide BuildOk, Follows, FollowsClosed, FollowsLeast, AllStates, ListsOk, LeastItems, AllReached;
    Well();
    Parts(G, b);
    var a := AutomatonOf(b.ss);
    assert TightAt(G, a, 0, Sym(4), qa);
    assert Fits(2, Sym(2)) && Moves(a, qa, 2, qd);
    forall k: Kind, x: nat | Wanted(G, a, b.f, qa, 2, k, x) ensures k == SHIFT && x == qd {
      if k.SHIFT? {
        SymMove(G, a, qa, 2, x);
      } else {
        CompleteBehindC(b, qa, x);
      }
    }
    hide Lr0;
    OnlyWanted(b, qa, 2, SHIFT, qd);
  }

  /** Behind C only S ::= C is complete, and it is not followed by d. */
  lemma CompleteBehindC(b: Build, qa: nat, r: nat)
    requires BuildOk(G, b) && Goes(AutomatonOf(b.ss), 0, Sym(4), qa) && qa != 0 && r < 5
    ensures !(Has(AutomatonOf(b.ss), qa, Final(G, r)) && Follows(b.f, qa, Final(G, r), 2))
  {
    hide BuildOk, FollowsClosed, FollowsLeast, AllStates, ListsOk, LeastItems, AllReached;
    Well();
    Parts(G, b);
    IsReady(b);
    EndOfStart(b);
    var a := AutomatonOf(b.ss);
    if Has(a, qa, Final(G, r)) {
      if r == 4 {
        AsksForE(a, qa);
        Back(G, a, 0, Sym(4), qa, Item(3, 1));
      } else {
        Back(G, a, 0, Sym(4), qa, Final(G, r));
        assert WfAt(G, a, 0, Item(r, |G.rules[r].rhs| - 1));
      }
    }
  }

  lemma EndOfStart(b: Build)
    requires BuildOk(G, b)
    ensures OnlyEnd(G, b.f)
  {
  }

  /** A token's entry in the final table. */
  lemma TokenEntry(b: Build, q: nat, c: nat)
    requires BuildOk(G, b) && q < |b.ap| && c < 3
    ensures Lookup(FinalTable(G, b), q, c) == Converted(G, b.autos, c, Lookup(DefaultTable(G, b), q, c))
  {
    hide FollowsClosed, FollowsLeast, AllStates, Lr0, ListsOk, Lookup, OnlyEnd, KeepsGotos, CompressedAt;
    Well();
  }

  /** A goto that is a shift stays one. */
  lemma GotoStays(b: Build, q: nat, c: nat, q': nat)
    requires BuildOk(G, b) && q < |b.ap| && 3 <= c && Lookup(DefaultTable(G, b), q, c) == Shift(q') && q' < |b.autos| && b.autos[q'].None?
    ensures Lookup(FinalTable(G, b), q, c) == Shift(q')
  {
    hide FollowsClosed, FollowsLeast, AllStates, Lr0, ListsOk, Lookup, OnlyEnd, KeepsGotos, CompressedAt;
    Well();
    assert SkipsTo(G, b.noCode, ReduceTable(G, b), FinalTable(G, b), q, c);
    var d: nat, n: nat :| Skips(G, b.noCode, ReduceTable(G, b), q, c, d, n) && Lookup(FinalTable(G, b), q, c) == Lookup(ReduceTable(G, b), q, d);
    assert n == 0;
  }

  lemma EntriesOnTheWay(b: Build) returns (qc: nat, qa: nat, qd: nat)
    requires BuildOk(G, b)
    ensures Goes(AutomatonOf(b.ss), 0, Sym(4), qa) && Goes(AutomatonOf(b.ss), qa, Sym(2), qd)
    ensures var tb := FinalTable(G, b);
      && (Lookup(tb, 0, 1) == ShiftReduce(2) || (Lookup(tb, 0, 1) == Shift(qc) && Lookup(tb, qc, 2) == Reduce(2)))
      && Lookup(tb, 0, 4) == Shift(qa) && Lookup(tb, qa, 2) == Shift(qd)
  {
    hide BuildOk, Follows, FollowsClosed, FollowsLeast, AllStates, ListsOk, LeastItems, AllReached, Lr0, Ready, Lookup, DefaultTable, FinalTable, BehindD;
    Well();
    Parts(G, b);
    IsReady(b);
    var a := AutomatonOf(b.ss);
    qc := BehindC(a, b.f);
    qa, qd := FindState(a);
    assert BehindD(a, qd) && Has(a, qd, Item(3, 1)) && qd < |a.items| by {
      DIsThere(a, qd);
    }
    ShiftsC(b, qc);
    ReducesC(b, qc);
    ShiftsDHere(b, qa, qd);
    GotoIs(G, b, 0, 4, qa);
    TokenEntry(b, 0, 1);
    TokenEntry(b, qc, 2);
    TokenEntry(b, qa, 2);
    NotAuto(b, qa, Item(1, 1), 5);
    NotAuto(b, qd, Item(3, 1), 6);
    GotoStays(b, 0, 4, qa);
    AutoRule(b, qc);
  }

  lemma DIsThere(a: Automaton, qd: nat)
    requires BehindD(a, qd)
    ensures Has(a, qd, Item(3, 1)) && qd < |a.items|
  {
  }

  /** If that state only reduces, then by C ::= c. */
  lemma AutoRule(b: Build, qc: nat)
    requires BuildOk(G, b) && Goes(AutomatonOf(b.ss), 0, Sym(1), qc) && qc != 0 && qc < |b.ap| == |b.autos|
    ensures b.autos[qc].Some? ==> b.autos[qc].value == 2
  {
    hide BuildOk, Follows, FollowsClosed, FollowsLeast, AllStates, ListsOk, LeastItems, AllReached, Lr0;
    Well();
    IsReady(b);
    Facts(G, b, qc);
    AutosAreBest(G, b, qc);
    if b.best[qc].Some? {
      OnlyC(AutomatonOf(b.ss), qc, Final(G, b.best[qc].value));
    }
  }

  /** On the tokens c d the driver comes to the state behind C d, and looks up the next token there. */
  lemma DriverComes(b: Build) returns (p: Parser, qa: nat, qd: nat)
    requires BuildOk(G, b)
    ensures Goes(AutomatonOf(b.ss), 0, Sym(4), qa) && Goes(AutomatonOf(b.ss), qa, Sym(2), qd)
    ensures Run(G, FinalTable(G, b), Running(Fresh, [1, 2]), 3) == Running(p, [])
    ensures p.stack == [Bottom, Entry(Shift(qa), 4), Entry(Shift(qd), 2)]
  {
    hide BuildOk, FinalTable, Goes;
    Well();
    var tb := FinalTable(G, b);
    var qc;
    qc, qa, qd := EntriesOnTheWay(b);
    p := ThreeSteps(tb, qc, qa, qd);
  }

  lemma ThreeSteps(tb: Table, qc: nat, qa: nat, qd: nat) returns (p: Parser)
    requires Lookup(tb, 0, 1) == ShiftReduce(2) || (Lookup(tb, 0, 1) == Shift(qc) && Lookup(tb, qc, 2) == Reduce(2))
    requires Lookup(tb, 0, 4) == Shift(qa) && Lookup(tb, qa, 2) == Shift(qd)
    ensures Run(G, tb, Running(Fresh, [1, 2]), 3) == Running(p, [])
    ensures p.stack == [Bottom, Entry(Shift(qa), 4), Entry(Shift(qd), 2)]
  {
    hide Lookup;
    Well();
    var p1 := LoopStep(G, tb, Fresh, 1).p;
    assert p1.stack[..1] == [Bottom];
    var p2 := LoopStep(G, tb, p1, 2).p;
    assert p2.stack == [Bottom] + [Entry(Shift(qa), 4)] == [Bottom, Entry(Shift(qa), 4)];
    p := LoopStep(G, tb, p2, 2).p;
    assert [1, 2][1..] == [2] && [2][1..] == [];
    assert Run(G, tb, Running(Fresh, [1, 2]), 3) == Run(G, tb, Running(p1, [2]), 2) == Run(G, tb, Running(p2, [2]), 1)
      == Run(G, tb, Running(p, []), 0);
  }

  /** What lemon makes of this grammar. */
  method Generated() returns (b: Build, num: Numbering, t: Tables)
    ensures BuildOk(G, b) && TablesFor(G, num, b.ap3, t) && !LastHasToken(G, num, b.ap3)
  {
    hide BuildOk, Resorted, TablesFor, LastHasToken, ParserRight, TokensLast;
    Well();
    NeverTiedWithout(G);
    var conflicts, ok;
    b, conflicts, num, ok, t := Generate(G, NoPrecedence, []);
    ghost var qa, qd := StateMissing(b, num, t, 0);
  }
}
