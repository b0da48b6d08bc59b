/** A grammar whose packed table (tools/lemon/lemon.c, "acttab") is read past its end, because its last set
    of tokens finds no room. */
module CrampedTable {
  import opened Grammars
  import opened LrTheory
  import opened States
  import opened FollowSets
  import opened Conflicts
  import opened ActionLists
  import opened Resort
  import T = Acttab
  import opened Packed
  import opened Generator
  import opened BuildFacts
  import opened SingleRules

  // Symbols: 0 end of input, 28 x, the last of 28 tokens, 29 S, 30 A.

  /** A ::= A.  S ::= A.  A ::= x. */
  const G := Grammar(29, 31, 29, [Rule(30, [Sym(30)]), Rule(29, [Sym(30)]), Rule(30, [Sym(28)])])

  lemma Well()
    ensures Singles(G) && |G.rules| == 3 && G.rules[0] == Rule(30, [Sym(30)]) && G.rules[1] == Rule(29, [Sym(30)])
    ensures G.rules[2] == Rule(30, [Sym(28)])
  {
    assert forall r :: r in G.rules ==> WfRule(G, r);
  }

  lemma First(a: Automaton, f: Follow)
    requires Lr0(G, a) && FollowsClosed(G, a, f)
    ensures AllFirst(G, a, f)
  {
    Well();
    assert ClosedAt(G, a, 0, 1);
    assert G.rules[1].rhs[1..] == [];
    Call(G, a, f, 0, Item(1, 0), 0, 0);
    Call(G, a, f, 0, Item(1, 0), 2, 0);
  }

  // ----- one state is kept

  lemma AfterFirst(a: Automaton, c: nat)
    requires Lr0(G, a) && Asks(G, a, 0, Sym(c))
    ensures c == 30 || c == 28
  {
    Well();
    var it :| Has(a, 0, it) && Shiftable(G, it) && After(G, it) == Sym(c);
    assert WfAt(G, a, 0, it);
  }

  lemma NoneComplete(a: Automaton, r: nat)
    requires Lr0(G, a) && r < 3
    ensures !Has(a, 0, Final(G, r))
  {
    Well();
    assert WfAt(G, a, 0, Final(G, r));
  }

  lemma OthersAuto(p: Precedence, b: Build, q: nat)
    requires BuildOk(G, b) && Decided(G, p, b) && NoLevels(p) && 0 < q < |b.autos|
    ensures b.autos[q].Some?
  {
    hide BuildOk, Decided, NoLevels, LeastItems, AllReached, FollowsLeast, FollowsClosed, Lr0, AllStates, ListsOk, Singles, Asks;
    Well();
    Parts(G, b);
    var a := AutomatonOf(b.ss);
    First(a, b.f);
    var c := BehindSymbol(G, a, q);
    AfterFirst(a, c);
    var qa := Behind(G, p, b, 30, 0);
    var qx := Behind(G, p, b, 28, 2);
  }

  lemma OneRow(p: Precedence, b: Build, num: Numbering)
    requires BuildOk(G, b) && Decided(G, p, b) && NoLevels(p) && Resorted(G, b.ap3, b.autos, num)
    ensures |b.ap3| > 0 && ValidNumbering(num, |b.ap3|) && num.nxstate == 1 && Rows(num, b.ap3) == [b.ap3[0]]
  {
    hide BuildOk, Decided, NoLevels, InOrder, LeastItems, AllReached, FollowsLeast, FollowsClosed, Lr0, AllStates, ListsOk;
    Parts(G, b);
    if num.nxstate > 1 {
      var q := num.sorted[num.nxstate - 1];
      assert num.statenum[q] == num.nxstate - 1 && num.statenum[num.sorted[0]] == 0;
      OthersAuto(p, b, q);
    }
  }

  // ----- its two sets

  lemma Entry0(b: Build, x: Action)
    requires BuildOk(G, b) && |b.ap3| > 0 && x in b.ap3[0] && Emitted(x.kind) && x.sp < 31
    ensures x.sp == 28 || x.sp == 29 || x.sp == 30
  {
    hide BuildOk, LeastItems, AllReached, FollowsLeast, FollowsClosed, AllStates, ListsOk, Follows;
    Well();
    Parts(G, b);
    var a := AutomatonOf(b.ss);
    forall r: nat | r < 3 ensures !Has(a, 0, Final(G, r)) {
      NoneComplete(a, r);
    }
    hide Lr0;
    var y := FinalAction(G, b, 0, x);
    if y.kind.SHIFT? {
      SymMove(G, a, 0, y.sp, y.arg);
      AfterFirst(a, y.sp);
    }
  }

  lemma EntriesThere(b: Build)
    requires BuildOk(G, b)
    ensures |b.ap3| > 0 && 28 in Entries(G, b.ap3[0]) && 29 in Entries(G, b.ap3[0]) && 30 in Entries(G, b.ap3[0])
  {
    hide BuildOk, LeastItems, AllReached, FollowsLeast, AllStates, ListsOk, Entries;
    Well();
    Parts(G, b);
    var a := AutomatonOf(b.ss);
    First(a, b.f);
    var qa := GoOn(G, a, 0, Item(0, 0));
    var qx := GoOn(G, a, 0, Item(2, 0));
    hide Lr0, FollowsClosed;
    forall r: nat | r < 3 ensures !Has(a, 0, Final(G, r)) {
      NoneComplete(a, r);
    }
    assert Fits(30, Sym(30)) && Moves(a, 0, 30, qa) && Fits(28, Sym(28)) && Moves(a, 0, 28, qx);
    EntryKept(G, b, 0, 30, SHIFT, qa);
    EntryKept(G, b, 0, 28, SHIFT, qx);
    EntryKept(G, b, 0, 29, ACCEPT, 0);
  }

  lemma TokenSet(b: Build, num: Numbering) returns (x: int)
    requires BuildOk(G, b)
    ensures |b.ap3| > 0 && SetOf(G, num, 3, true, b.ap3[0]) == [T.Slot(28, x)]
  {
    hide BuildOk, SetOf, OneEmitted, DistinctIds, Entries, T.Pairs;
    Well();
    EntriesThere(b);
    ListsThere(G, b);
    var s := SetOf(G, num, 3, true, b.ap3[0]);
    SetOfDistinct(G, num, 3, true, b.ap3[0]);
    SetOfIs(G, num, 3, true, b.ap3[0], 28);
    T.PairsAre(s, 28);
    assert |s| > 1 ==> s[0].lookahead != s[1].lookahead;
    forall i | 0 <= i < |s| ensures s[i].lookahead == 28 {
      SetOfMembers(G, num, 3, true, b.ap3[0], i);
      var k :| 0 <= k < |b.ap3[0]| && Belongs(G, true, b.ap3[0][k]) && b.ap3[0][k].sp == s[i].lookahead;
      Entry0(b, b.ap3[0][k]);
    }
    x := s[0].action;
  }

  lemma GotoSet(b: Build, num: Numbering)
    requires BuildOk(G, b)
    ensures |b.ap3| > 0 && var s := SetOf(G, num, 3, false, b.ap3[0]);
      |s| == 2 && ((s[0].lookahead == 29 && s[1].lookahead == 30) || (s[0].lookahead == 30 && s[1].lookahead == 29))
  {
    hide BuildOk, SetOf, OneEmitted, DistinctIds, Entries, T.Pairs;
    Well();
    EntriesThere(b);
    ListsThere(G, b);
    var s := SetOf(G, num, 3, false, b.ap3[0]);
    SetOfDistinct(G, num, 3, false, b.ap3[0]);
    SetOfIs(G, num, 3, false, b.ap3[0], 29);
    SetOfIs(G, num, 3, false, b.ap3[0], 30);
    T.PairsAre(s, 29);
    T.PairsAre(s, 30);
    assert |s| > 2 ==> s[0].lookahead != s[1].lookahead && s[0].lookahead != s[2].lookahead && s[1].lookahead != s[2].lookahead;
    forall i | 0 <= i < |s| ensures s[i].lookahead == 29 || s[i].lookahead == 30 {
      SetOfMembers(G, num, 3, false, b.ap3[0], i);
      var k :| 0 <= k < |b.ap3[0]| && Belongs(G, false, b.ap3[0][k]) && b.ap3[0][k].sp == s[i].lookahead;
      Entry0(b, b.ap3[0][k]);
    }
  }

  // ----- the table

  /** The set on nonterminals lies in the first two of 52 slots. */
  lemma FirstLaid(s: seq<T.Slot>) returns (slots: seq<T.Slot>)
    requires |s| == 2 && ((s[0].lookahead == 29 && s[1].lookahead == 30) || (s[0].lookahead == 30 && s[1].lookahead == 29))
    ensures |slots| == 52 && T.Laid(29, 31, [], 0, T.Txn(s, false), slots, 2)
  {
    var u, v := if s[0].lookahead == 29 then s[0] else s[1], if s[0].lookahead == 29 then s[1] else s[0];
    var grown := T.Growth([], 0, 31);
    slots := grown[0 := u][1 := v];
    assert T.SetBounds(s, 29, u.action, 30);
    assert T.FreeAt(grown, s, 29, 0, 0);
    assert T.Chosen(grown, s, 29, 30, 0, 0, 0);
    assert T.Written(grown, slots, s, 29, 0) by {
      assert T.Places(s, 29, 0) == {0, 1};
    }
    assert T.LaidAt(29, 31, [], 0, T.Txn(s, false), 29, u.action, 30, 0, slots, 2);
  }

  lemma LastIsCramped(slots: seq<T.Slot>, x: int)
    requires |slots| == 52
    ensures T.CrampedIn(29, 31, slots, 2, T.Txn([T.Slot(28, x)], true))
  {
    var s := [T.Slot(28, x)];
    assert s[0] == T.Slot(28, x);
    assert T.SetBounds(s, 28, x, 28) && T.Cramped(T.Growth(slots, 2, 31), s, 28, 2, 29);
  }

  /** Whatever the build: the set on x is the last, it lies at offset 0, and behind it there is no room for all tokens. */
  lemma ReadPastEnd(p: Precedence, b: Build, num: Numbering)
    requires BuildOk(G, b) && Decided(G, p, b) && NoLevels(p) && Resorted(G, b.ap3, b.autos, num)
    ensures ValidNumbering(num, |b.ap3|) && Overruns(G, num, Rows(num, b.ap3))
  {
    hide BuildOk, Decided, NoLevels, Resorted, SetOf, T.Laid, T.CrampedIn, OneEmitted, DistinctIds;
    Well();
    OneRow(p, b, num);
    var x := TokenSet(b, num);
    GotoSet(b, num);
    var rows := [b.ap3[0]];
    SetOfSize(G, num, 3, true, b.ap3[0]);
    SetOfSize(G, num, 3, false, b.ap3[0]);
    var ax := InTwo(rows);
    var slots := FirstLaid(SetOf(G, num, 3, false, b.ap3[0]));
    MakesOne(num, rows, ax, slots);
    LastIsCramped(slots, x);
    assert OverrunsBy(G, num, rows, ax, 2, slots, 2);
  }

  /** The set on nonterminals is the larger one. */
  lemma InTwo(rows: seq<seq<Action>>) returns (ax: seq<AxSet>)
    requires |rows| == 1 && Size(G, true, rows[0]) == 1 && Size(G, false, rows[0]) == 2
    ensures ax == [AxSet(0, false, 2, 1), AxSet(0, true, 1, 0)] && LastOf(G, rows, ax, 2)
  {
    hide Size;
    ax := [AxSet(0, false, 2, 1), AxSet(0, true, 1, 0)];
    assert AxAt(G, rows, 0) == ax[1] && AxAt(G, rows, 1) == ax[0];
    forall n: nat | n < 2 * |rows| ensures AxAt(G, rows, n) in ax {
      assert n == 0 || n == 1;
    }
  }

  lemma MakesOne(num: Numbering, rows: seq<seq<Action>>, ax: seq<AxSet>, slots: seq<T.Slot>)
    requires |rows| == 1 && ax == [AxSet(0, false, 2, 1), AxSet(0, true, 1, 0)]
    requires T.Laid(29, 31, [], 0, T.Txn(SetOf(G, num, 3, false, rows[0]), false), slots, 2)
    ensures T.Makes(29, 31, Inserted(G, num, rows, ax, 1), slots, 2)
  {
    hide T.Laid, SetOf;
    Well();
    EmptyTable(G, num, rows, ax);
    MakesMore(G, num, rows, ax, 0, [], 0, slots, 2);
  }

  /** What lemon makes of this grammar. */
  method Generated() returns (b: Build, ok: bool)
    ensures BuildOk(G, b) && !ok
  {
    hide BuildOk, Decided, Resorted, ParserRight, UnitsEnd, Overruns, TablesFor;
    Well();
    NeverTiedWithout(G);
    var conflicts, num, t;
    b, conflicts, num, ok, t := Generate(G, NoPrecedence, []);
    ReadPastEnd(NoPrecedence, b, num);
  }
}
