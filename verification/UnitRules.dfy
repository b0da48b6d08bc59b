/** The third pass of CompressTables. */
module UnitRules {
  // From tools/lemon/lemon.c: a goto that would only reduce by a rule with one symbol and no code takes the action of the
  // left-hand side at once.

  import opened Grammars
  import opened Driver
  import opened Conflicts
  import opened ActionLists
  import opened Compress
  import opened Termination

  /** `nrhs` is 1 and `noCode` is set. */
  predicate Idle(g: Grammar, noCode: seq<bool>, r: nat) {
    r < |g.rules| && |g.rules[r].rhs| == 1 && r < |noCode| && noCode[r]
  }

  predicate Skippable(g: Grammar, noCode: seq<bool>, x: Action) {
    x.kind.SHIFTREDUCE? && Idle(g, noCode, x.arg) && x.sp >= g.nterminal
  }

  // ----- chains of such rules

  ghost predicate IdleStep(g: Grammar, noCode: seq<bool>, c: nat, d: nat) {
    exists r: nat :: Idle(g, noCode, r) && g.rules[r] == Rule(d, [Sym(c)])
  }

  ghost predicate IdlePath(g: Grammar, noCode: seq<bool>, c: nat, d: nat, n: nat)
    decreases n
  {
    if n == 0 then c == d else exists e :: IdleStep(g, noCode, c, e) && IdlePath(g, noCode, e, d, n - 1)
  }

  /** No nonterminal leads to itself by unit rules without code. */
  ghost predicate NoIdleCycle(g: Grammar, noCode: seq<bool>) {
    forall c: nat, n: nat :: n > 0 ==> !IdlePath(g, noCode, c, c, n)
  }

  ghost predicate IdleReach(g: Grammar, noCode: seq<bool>, c: nat, d: nat) {
    exists n: nat :: n > 0 && IdlePath(g, noCode, c, d, n)
  }

  ghost function IdleSet(g: Grammar, noCode: seq<bool>, c: nat): set<nat> {
    set d: nat | d < g.nsymbol && IdleReach(g, noCode, c, d)
  }

  ghost function IdleRank(g: Grammar, noCode: seq<bool>, c: nat): nat {
    |IdleSet(g, noCode, c)|
  }

  lemma IdleRankFalls(g: Grammar, noCode: seq<bool>, c: nat, d: nat)
    requires NoIdleCycle(g, noCode) && IdleStep(g, noCode, c, d) && d < g.nsymbol
    ensures IdleRank(g, noCode, d) < IdleRank(g, noCode, c)
  {
    forall e | e in IdleSet(g, noCode, d) ensures e in IdleSet(g, noCode, c) {
      var n: nat :| n > 0 && IdlePath(g, noCode, d, e, n);
      assert IdlePath(g, noCode, c, e, n + 1);
    }
    assert IdlePath(g, noCode, d, d, 0) && IdlePath(g, noCode, c, d, 1);
    assert d in IdleSet(g, noCode, c) && d !in IdleSet(g, noCode, d);
    SmallerSet(IdleSet(g, noCode, d), IdleSet(g, noCode, c));
  }

  // ----- the pass over one list

  ghost predicate HasOn(acts: seq<Action>, sp: nat) {
    exists y :: y in acts && y.sp == sp
  }

  /** The list of a state: at most one entry on a nonterminal, and one for the left-hand side of every rule to be skipped,
      whose right-hand side is the symbol of its entry. */
  ghost predicate ListShape(g: Grammar, noCode: seq<bool>, acts: seq<Action>) {
    && WfGrammar(g) && OneEmitted(acts) && DistinctIds(acts) && GotosEmitted(g, acts)
    && forall x :: x in acts && Skippable(g, noCode, x) ==>
         g.rules[x.arg].rhs == [Sym(x.sp)] && HasOn(acts, g.rules[x.arg].lhs)
  }

  /** The place where the chain of an entry ends. */
  ghost predicate EndsIn(g: Grammar, noCode: seq<bool>, acts: seq<Action>, i: nat, e: nat, n: nat)
    decreases n
  {
    && i < |acts| && e < |acts|
    && if n == 0 then i == e && !Skippable(g, noCode, acts[i])
       else Skippable(g, noCode, acts[i])
            && exists j: nat :: j < |acts| && acts[j].sp == g.rules[acts[i].arg].lhs && EndsIn(g, noCode, acts, j, e, n - 1)
  }

  ghost predicate ChainEnds(g: Grammar, noCode: seq<bool>, acts: seq<Action>, i: nat) {
    exists e: nat, n: nat :: EndsIn(g, noCode, acts, i, e, n)
  }

  /** Every chain of rules to be skipped comes to an end. */
  ghost predicate ChainsEnd(g: Grammar, noCode: seq<bool>, acts: seq<Action>) {
    forall i: nat :: i < |acts| ==> ChainEnds(g, noCode, acts, i)
  }

  ghost predicate ListFits(g: Grammar, noCode: seq<bool>, acts: seq<Action>) {
    ListShape(g, noCode, acts) && ChainsEnd(g, noCode, acts)
  }

  lemma OnePlace(g: Grammar, noCode: seq<bool>, acts: seq<Action>, i: nat, j: nat)
    requires ListShape(g, noCode, acts) && i < |acts| && j < |acts| && acts[i].sp == acts[j].sp >= g.nterminal
    ensures i == j
  {
    assert acts[i] in acts && acts[j] in acts;
  }

  lemma NextSymbol(g: Grammar, noCode: seq<bool>, acts: seq<Action>, i: nat) returns (j: nat)
    requires ListShape(g, noCode, acts) && i < |acts| && Skippable(g, noCode, acts[i])
    ensures var d := g.rules[acts[i].arg].lhs;
      j < |acts| && acts[j].sp == d && g.nterminal <= d < g.nsymbol && IdleStep(g, noCode, acts[i].sp, d)
  {
    assert acts[i] in acts;
    var d := g.rules[acts[i].arg].lhs;
    assert HasOn(acts, d) && WfRule(g, g.rules[acts[i].arg]);
    var y :| y in acts && y.sp == d;
    j :| 0 <= j < |acts| && acts[j] == y;
    assert g.rules[acts[i].arg] == Rule(d, [Sym(acts[i].sp)]);
  }

  /** A chain ends in one place. */
  lemma {:induction false} OneChainEnd(g: Grammar, noCode: seq<bool>, acts: seq<Action>, i: nat, e: nat, n: nat, e': nat, n': nat)
    requires ListShape(g, noCode, acts) && EndsIn(g, noCode, acts, i, e, n) && EndsIn(g, noCode, acts, i, e', n')
    ensures e == e' && n == n'
    decreases n
  {
    hide ListShape;
    if n > 0 {
      var j: nat :| j < |acts| && acts[j].sp == g.rules[acts[i].arg].lhs && EndsIn(g, noCode, acts, j, e, n - 1);
      var j': nat :| j' < |acts| && acts[j'].sp == g.rules[acts[i].arg].lhs && EndsIn(g, noCode, acts, j', e', n' - 1);
      var j0 := NextSymbol(g, noCode, acts, i);
      OnePlace(g, noCode, acts, j, j');
      OneChainEnd(g, noCode, acts, j, e, n - 1, e', n' - 1);
    }
  }

  lemma OneFurther(g: Grammar, noCode: seq<bool>, acts: seq<Action>, m: nat, j: nat, e: nat, n: nat)
    requires m < |acts| && Skippable(g, noCode, acts[m]) && j < |acts| && acts[j].sp == g.rules[acts[m].arg].lhs
    requires EndsIn(g, noCode, acts, j, e, n)
    ensures EndsIn(g, noCode, acts, m, e, n + 1)
  {
  }

  /** Without a cycle of unit rules that have no code, every chain ends. */
  lemma {:induction false} NoCycleEnds(g: Grammar, noCode: seq<bool>, acts: seq<Action>, i: nat)
    requires ListShape(g, noCode, acts) && NoIdleCycle(g, noCode) && i < |acts|
    ensures ChainEnds(g, noCode, acts, i)
    decreases IdleRank(g, noCode, acts[i].sp)
  {
    hide ListShape, IdleRank, NoIdleCycle, IdleStep;
    if Skippable(g, noCode, acts[i]) {
      var j := NextSymbol(g, noCode, acts, i);
      IdleRankFalls(g, noCode, acts[i].sp, acts[j].sp);
      NoCycleEnds(g, noCode, acts, j);
      var e: nat, n: nat :| EndsIn(g, noCode, acts, j, e, n);
      OneFurther(g, noCode, acts, i, j, e, n);
    } else {
      assert EndsIn(g, noCode, acts, i, i, 0);
    }
  }

  // ----- the pass, step by step

  /** The first other action on the symbol, from place `k` on. */
  function Other(acts: seq<Action>, i: nat, sp: nat, k: nat): (j: nat)
    requires k <= |acts|
    ensures k <= j <= |acts| && (j < |acts| ==> j != i && acts[j].sp == sp)
    ensures forall l :: k <= l < j && l != i ==> acts[l].sp != sp
    decreases |acts| - k
  {
    if k < |acts| && (k == i || acts[k].sp != sp) then Other(acts, i, sp, k + 1) else k
  }

  /** At place `i` of the list; or the assertion that there is another action has failed. */
  datatype Pass = Going(acts: seq<Action>, i: nat) | NoOther

  /** One turn of the loop over a state's list: on to the next action, or copy the one on the left-hand side and stay. */
  function PassStep(g: Grammar, noCode: seq<bool>, p: Pass): Pass {
    if p.NoOther? || p.i >= |p.acts| then p
    else if !Skippable(g, noCode, p.acts[p.i]) then Going(p.acts, p.i + 1)
    else
      var j := Other(p.acts, p.i, g.rules[p.acts[p.i].arg].lhs, 0);
      if j == |p.acts| then NoOther else Going(p.acts[p.i := Copied(p.acts, p.i, j)], p.i)
  }

  function Copied(acts: seq<Action>, i: nat, j: nat): Action
    requires i < |acts| && j < |acts|
  {
    acts[i].(kind := acts[j].kind, arg := acts[j].arg)
  }

  function PassRun(g: Grammar, noCode: seq<bool>, p: Pass, n: nat): Pass
    decreases n
  {
    if n == 0 then p else PassRun(g, noCode, PassStep(g, noCode, p), n - 1)
  }

  ghost predicate PassTo(g: Grammar, noCode: seq<bool>, acts: seq<Action>, now: seq<Action>, i: nat, n: nat) {
    PassRun(g, noCode, Going(acts, 0), n) == Going(now, i)
  }

  /** The pass comes to the end of the list, and no assertion fails. */
  ghost predicate PassEnds(g: Grammar, noCode: seq<bool>, acts: seq<Action>) {
    exists acts', n: nat :: PassTo(g, noCode, acts, acts', |acts|, n)
  }

  lemma {:induction false} PassMore(g: Grammar, noCode: seq<bool>, p: Pass, n: nat)
    ensures PassRun(g, noCode, p, n + 1) == PassStep(g, noCode, PassRun(g, noCode, p, n))
    decreases n
  {
    if n > 0 {
      PassMore(g, noCode, PassStep(g, noCode, p), n - 1);
    }
  }

  // ----- when it ends

  /** What the entry at `i` becomes, if its chain ends at `e`. */
  function Becomes(acts: seq<Action>, i: nat, e: nat): Action
    requires i < |acts| && e < |acts|
  {
    acts[i].(kind := acts[e].kind, arg := acts[e].arg)
  }

  ghost predicate Done(g: Grammar, noCode: seq<bool>, acts: seq<Action>, i: nat, x: Action) {
    i < |acts| && exists e: nat, n: nat :: EndsIn(g, noCode, acts, i, e, n) && x == Becomes(acts, i, e)
  }

  /** The entry at `i` is where the chain from `m` still goes on, for `n` rules, to the end `e` of its own. */
  ghost predicate OnTheWay(g: Grammar, noCode: seq<bool>, acts: seq<Action>, i: nat, m: nat, e: nat, n: nat) {
    && i < |acts| && m < |acts| && EndsIn(g, noCode, acts, m, e, n) && (m == i || acts[m].sp >= g.nterminal)
    && exists n0: nat :: EndsIn(g, noCode, acts, i, e, n0) && n <= n0 && (m == i || n < n0)
  }

  /** Before place `i` all is done, behind it nothing, and at it the chain has been followed up to `m`. */
  ghost predicate Midway(g: Grammar, noCode: seq<bool>, acts: seq<Action>, now: seq<Action>, i: nat, m: nat, e: nat, n: nat) {
    && |now| == |acts| && OnTheWay(g, noCode, acts, i, m, e, n) && now[i] == Becomes(acts, i, m)
    && (forall k: nat :: k < i ==> Done(g, noCode, acts, k, now[k]))
    && (forall k: nat :: i < k < |acts| ==> now[k] == acts[k])
  }

  /** Up to place `i` all is done, from there on nothing. */
  ghost predicate DoneUpTo(g: Grammar, noCode: seq<bool>, acts: seq<Action>, now: seq<Action>, i: nat) {
    && |now| == |acts|
    && (forall k: nat :: k < |acts| && k < i ==> Done(g, noCode, acts, k, now[k]))
    && (forall k: nat :: i <= k < |acts| ==> now[k] == acts[k])
  }

  lemma ChainStarts(g: Grammar, noCode: seq<bool>, acts: seq<Action>, now: seq<Action>, i: nat) returns (e: nat, n: nat)
    requires ChainsEnd(g, noCode, acts) && DoneUpTo(g, noCode, acts, now, i) && i < |acts|
    ensures Midway(g, noCode, acts, now, i, i, e, n)
  {
    hide EndsIn, Done;
    assert ChainEnds(g, noCode, acts, i);
    e, n :| EndsIn(g, noCode, acts, i, e, n);
    assert OnTheWay(g, noCode, acts, i, i, e, n);
  }

  lemma SameSkip(g: Grammar, noCode: seq<bool>, acts: seq<Action>, now: seq<Action>, i: nat, m: nat, e: nat, n: nat)
    requires Midway(g, noCode, acts, now, i, m, e, n)
    ensures Skippable(g, noCode, now[i]) <==> Skippable(g, noCode, acts[m])
    ensures Skippable(g, noCode, now[i]) <==> n > 0
    ensures n == 0 ==> m == e && DoneUpTo(g, noCode, acts, now, i + 1)
  {
    hide Done;
    var n0: nat :| EndsIn(g, noCode, acts, i, e, n0) && n <= n0 && (m == i || n < n0);
    if n == 0 {
      assert EndsIn(g, noCode, acts, i, e, n0) && now[i] == Becomes(acts, i, e);
      assert Done(g, noCode, acts, i, now[i]) by {
        ItIsDone(g, noCode, acts, i, e, n0);
      }
    }
  }

  lemma ItIsDone(g: Grammar, noCode: seq<bool>, acts: seq<Action>, i: nat, e: nat, n: nat)
    requires EndsIn(g, noCode, acts, i, e, n)
    ensures i < |acts| && e < |acts| && Done(g, noCode, acts, i, Becomes(acts, i, e))
  {
  }

  /** Where the list stands, its symbols do not change. */
  lemma SameSymbols(g: Grammar, noCode: seq<bool>, acts: seq<Action>, now: seq<Action>, i: nat, m: nat, e: nat, n: nat, k: nat)
    requires Midway(g, noCode, acts, now, i, m, e, n) && k < |acts|
    ensures now[k].sp == acts[k].sp
  {
    hide EndsIn, OnTheWay;
    if k < i {
      assert Done(g, noCode, acts, k, now[k]);
    }
  }

  /** The action found is that on the left-hand side; if it was done before, the chain goes on from its end. */
  lemma OneTurn(g: Grammar, noCode: seq<bool>, acts: seq<Action>, now: seq<Action>, i: nat, m: nat, e: nat, n: nat)
    returns (m': nat, n': nat)
    requires ListShape(g, noCode, acts) && Midway(g, noCode, acts, now, i, m, e, n) && n > 0 && Skippable(g, noCode, acts[m])
    ensures var j := Other(now, i, g.rules[acts[m].arg].lhs, 0);
      && j < |now| && n' < n && Midway(g, noCode, acts, now[i := Copied(now, i, j)], i, m', e, n')
  {
    hide ListShape, Done, EndsIn, Midway;
    MidwayMeans(g, noCode, acts, now, i, m, e, n);
    var d := g.rules[acts[m].arg].lhs;
    var j := NextSymbol(g, noCode, acts, m);
    Advances(g, noCode, acts, m, j, e, n);
    NotItself(g, noCode, acts, i, m, j, e, n);
    SameSymbols(g, noCode, acts, now, i, m, e, n, j);
    var j' := Other(now, i, d, 0);
    if j' < |now| {
      SameSymbols(g, noCode, acts, now, i, m, e, n, j');
      OnePlace(g, noCode, acts, j, j');
    }
    assert j' == j;
    if j < i {
      assert Done(g, noCode, acts, j, now[j]);
      m', n' := e, 0;
      ItsEnd(g, noCode, acts, j, now[j], e, n - 1);
    } else {
      m', n' := j, n - 1;
    }
    MovesOn(g, noCode, acts, now, i, m, e, n, m', n', now[j]);
  }

  lemma MidwayMeans(g: Grammar, noCode: seq<bool>, acts: seq<Action>, now: seq<Action>, i: nat, m: nat, e: nat, n: nat)
    requires Midway(g, noCode, acts, now, i, m, e, n)
    ensures |now| == |acts| && OnTheWay(g, noCode, acts, i, m, e, n) && now[i] == Becomes(acts, i, m)
    ensures (forall k: nat :: k < i ==> Done(g, noCode, acts, k, now[k])) && (forall k: nat :: i < k < |acts| ==> now[k] == acts[k])
  {
  }

  lemma Advances(g: Grammar, noCode: seq<bool>, acts: seq<Action>, m: nat, j: nat, e: nat, n: nat)
    requires ListShape(g, noCode, acts) && EndsIn(g, noCode, acts, m, e, n) && n > 0 && j < |acts|
    requires acts[j].sp == g.rules[acts[m].arg].lhs >= g.nterminal
    ensures EndsIn(g, noCode, acts, j, e, n - 1)
  {
    hide ListShape;
    var j': nat :| j' < |acts| && acts[j'].sp == g.rules[acts[m].arg].lhs && EndsIn(g, noCode, acts, j', e, n - 1);
    OnePlace(g, noCode, acts, j, j');
  }

  /** A chain that ends does not come back to where it began. */
  lemma NotItself(g: Grammar, noCode: seq<bool>, acts: seq<Action>, i: nat, m: nat, j: nat, e: nat, n: nat)
    requires ListShape(g, noCode, acts) && OnTheWay(g, noCode, acts, i, m, e, n) && n > 0 && Skippable(g, noCode, acts[m])
    requires j < |acts| && acts[j].sp == g.rules[acts[m].arg].lhs && EndsIn(g, noCode, acts, j, e, n - 1)
    ensures j != i
  {
    hide ListShape, EndsIn;
    if j == i {
      var n0: nat :| EndsIn(g, noCode, acts, i, e, n0) && n <= n0;
      OneChainEnd(g, noCode, acts, i, e, n0, e, n - 1);
    }
  }

  lemma ItsEnd(g: Grammar, noCode: seq<bool>, acts: seq<Action>, j: nat, x: Action, e: nat, n: nat)
    requires ListShape(g, noCode, acts) && Done(g, noCode, acts, j, x) && EndsIn(g, noCode, acts, j, e, n)
    ensures j < |acts| && e < |acts| && x == Becomes(acts, j, e) && EndsIn(g, noCode, acts, e, e, 0)
    ensures acts[j].sp >= g.nterminal ==> acts[e].sp >= g.nterminal
  {
    hide ListShape;
    var e': nat, n': nat :| EndsIn(g, noCode, acts, j, e', n') && x == Becomes(acts, j, e');
    OneChainEnd(g, noCode, acts, j, e, n, e', n');
    EndRank(g, noCode, acts, j, e, n);
  }

  lemma {:induction false} EndRank(g: Grammar, noCode: seq<bool>, acts: seq<Action>, i: nat, e: nat, n: nat)
    requires ListShape(g, noCode, acts) && EndsIn(g, noCode, acts, i, e, n)
    ensures (acts[i].sp >= g.nterminal ==> acts[e].sp >= g.nterminal) && !Skippable(g, noCode, acts[e])
    decreases n
  {
    if n > 0 {
      var j: nat :| j < |acts| && acts[j].sp == g.rules[acts[i].arg].lhs && EndsIn(g, noCode, acts, j, e, n - 1);
      var j' := NextSymbol(g, noCode, acts, i);
      EndRank(g, noCode, acts, j, e, n - 1);
    }
  }

  lemma MovesOn(g: Grammar, noCode: seq<bool>, acts: seq<Action>, now: seq<Action>, i: nat, m: nat, e: nat, n: nat, m': nat, n': nat,
                x: Action)
    requires Midway(g, noCode, acts, now, i, m, e, n) && n' < n && m' < |acts| && EndsIn(g, noCode, acts, m', e, n')
    requires acts[m'].sp >= g.nterminal && x.kind == acts[m'].kind && x.arg == acts[m'].arg
    ensures Midway(g, noCode, acts, now[i := now[i].(kind := x.kind, arg := x.arg)], i, m', e, n')
  {
    hide EndsIn, Done;
    var n0: nat :| EndsIn(g, noCode, acts, i, e, n0) && n <= n0 && (m == i || n < n0);
    assert OnTheWay(g, noCode, acts, i, m', e, n');
  }

  /** If every chain ends, the pass ends. */
  lemma {:induction false} PassGoes(g: Grammar, noCode: seq<bool>, acts: seq<Action>, now: seq<Action>, i: nat, m: nat, e: nat, n: nat, s: nat)
    requires ListFits(g, noCode, acts) && Midway(g, noCode, acts, now, i, m, e, n) && PassTo(g, noCode, acts, now, i, s)
    ensures PassEnds(g, noCode, acts)
    decreases |acts| - i, n
  {
    hide ListShape, ChainsEnd, Midway, PassRun, DoneUpTo;
    MidwayMeans(g, noCode, acts, now, i, m, e, n);
    SameSkip(g, noCode, acts, now, i, m, e, n);
    PassMore(g, noCode, Going(acts, 0), s);
    if n == 0 {
      if i + 1 == |acts| {
        assert PassTo(g, noCode, acts, now, |acts|, s + 1);
      } else {
        var e', n' := ChainStarts(g, noCode, acts, now, i + 1);
        PassGoes(g, noCode, acts, now, i + 1, i + 1, e', n', s + 1);
      }
    } else {
      var m', n' := OneTurn(g, noCode, acts, now, i, m, e, n);
      var j := Other(now, i, g.rules[acts[m].arg].lhs, 0);
      PassGoes(g, noCode, acts, now[i := Copied(now, i, j)], i, m', e, n', s + 1);
    }
  }

  /** Each entry is its own or one further along its chain, which ends if that one's does; up to `i` all chains end. */
  ghost predicate Tracked(g: Grammar, noCode: seq<bool>, acts: seq<Action>, p: Pass) {
    p.Going? ==>
      && |p.acts| == |acts| && p.i <= |acts|
      && (forall k: nat :: k < |acts| ==> Tracks(g, noCode, acts, k, p.acts[k]))
      && (forall k: nat :: k < p.i ==> ChainEnds(g, noCode, acts, k))
  }

  ghost predicate Tracks(g: Grammar, noCode: seq<bool>, acts: seq<Action>, k: nat, x: Action) {
    k < |acts| && exists m: nat :: TracksTo(g, noCode, acts, k, m, x)
  }

  ghost predicate TracksTo(g: Grammar, noCode: seq<bool>, acts: seq<Action>, k: nat, m: nat, x: Action)
    requires k < |acts|
  {
    && m < |acts| && x == Becomes(acts, k, m) && (m == k || (Skippable(g, noCode, acts[k]) && acts[m].sp >= g.nterminal))
    && (ChainEnds(g, noCode, acts, m) ==> ChainEnds(g, noCode, acts, k))
  }

  lemma StepTracked(g: Grammar, noCode: seq<bool>, acts: seq<Action>, p: Pass)
    requires ListShape(g, noCode, acts) && Tracked(g, noCode, acts, p)
    ensures Tracked(g, noCode, acts, PassStep(g, noCode, p))
  {
    hide ListShape, ChainEnds, TracksTo;
    if p.Going? && p.i < |acts| {
      var i, x := p.i, p.acts[p.i];
      assert Tracks(g, noCode, acts, i, x);
      var m: nat :| TracksTo(g, noCode, acts, i, m, x);
      if !Skippable(g, noCode, x) {
        NoFurther(g, noCode, acts, i, m, x);
      } else {
        var j := Other(p.acts, i, g.rules[x.arg].lhs, 0);
        if j < |acts| {
          assert Tracks(g, noCode, acts, j, p.acts[j]);
          var m': nat :| TracksTo(g, noCode, acts, j, m', p.acts[j]);
          CopyTracks(g, noCode, acts, i, m, x, j, m', p.acts[j]);
        }
      }
    }
  }

  lemma NoFurther(g: Grammar, noCode: seq<bool>, acts: seq<Action>, i: nat, m: nat, x: Action)
    requires i < |acts| && TracksTo(g, noCode, acts, i, m, x) && !Skippable(g, noCode, x)
    ensures ChainEnds(g, noCode, acts, i)
  {
    assert EndsIn(g, noCode, acts, m, m, 0);
  }

  lemma CopyTracks(g: Grammar, noCode: seq<bool>, acts: seq<Action>, i: nat, m: nat, x: Action, j: nat, m': nat, y: Action)
    requires ListShape(g, noCode, acts) && i < |acts| && j < |acts|
    requires TracksTo(g, noCode, acts, i, m, x) && Skippable(g, noCode, x) && TracksTo(g, noCode, acts, j, m', y)
    requires y.sp == g.rules[x.arg].lhs
    ensures TracksTo(g, noCode, acts, i, m', x.(kind := y.kind, arg := y.arg))
  {
    hide ListShape, EndsIn;
    var j0 := NextSymbol(g, noCode, acts, m);
    if ChainEnds(g, noCode, acts, m') {
      var e: nat, n: nat :| EndsIn(g, noCode, acts, j, e, n);
      OneFurther(g, noCode, acts, m, j, e, n);
    }
  }

  lemma {:induction false} RunTracked(g: Grammar, noCode: seq<bool>, acts: seq<Action>, p: Pass, n: nat)
    requires ListShape(g, noCode, acts) && Tracked(g, noCode, acts, p)
    ensures Tracked(g, noCode, acts, PassRun(g, noCode, p, n))
    decreases n
  {
    hide ListShape, Tracked, PassStep;
    if n > 0 {
      StepTracked(g, noCode, acts, p);
      RunTracked(g, noCode, acts, PassStep(g, noCode, p), n - 1);
    }
  }

  /** The pass over a state's list ends, with its assertion true, if and only if every chain does. */
  lemma PassEndsIff(g: Grammar, noCode: seq<bool>, acts: seq<Action>)
    requires ListShape(g, noCode, acts)
    ensures PassEnds(g, noCode, acts) <==> ChainsEnd(g, noCode, acts)
  {
    hide ListShape, ChainEnds, Midway, EndsIn;
    assert PassTo(g, noCode, acts, acts, 0, 0);
    if ChainsEnd(g, noCode, acts) && acts != [] {
      var e, n := ChainStarts(g, noCode, acts, acts, 0);
      PassGoes(g, noCode, acts, acts, 0, 0, e, n, 0);
    }
    if PassEnds(g, noCode, acts) {
      var acts', n: nat :| PassTo(g, noCode, acts, acts', |acts|, n);
      forall k: nat | k < |acts| ensures Tracks(g, noCode, acts, k, acts[k]) {
        assert TracksTo(g, noCode, acts, k, k, acts[k]);
      }
      RunTracked(g, noCode, acts, Going(acts, 0), n);
    }
  }

  /** The first other action on the symbol. */
  method FindOther(acts: seq<Action>, i: nat, sp: nat) returns (j: nat)
    ensures j == Other(acts, i, sp, 0)
  {
    j := 0;
    while j < |acts| && (j == i || acts[j].sp != sp)
      invariant j <= |acts| && Other(acts, i, sp, 0) == Other(acts, i, sp, j)
    {
      j := j + 1;
    }
  }

  /** The entries of a state, those of rules to be skipped replaced by the entries at the ends of their chains; the search
      for the left-hand side never fails. */
  method SkipUnits(g: Grammar, noCode: seq<bool>, acts: seq<Action>) returns (acts': seq<Action>)
    requires ListFits(g, noCode, acts)
    ensures DoneUpTo(g, noCode, acts, acts', |acts|) && exists n: nat :: PassTo(g, noCode, acts, acts', |acts|, n)
  {
    hide ListShape, ChainsEnd, Midway, DoneUpTo, PassRun;
    acts' := acts;
    ghost var s: nat := 0;
    NothingDone(g, noCode, acts);
    for i := 0 to |acts|
      invariant DoneUpTo(g, noCode, acts, acts', i) && PassTo(g, noCode, acts, acts', i, s)
    {
      ghost var m: nat := i;
      ghost var e, n := ChainStarts(g, noCode, acts, acts', i);
      MidwayMeans(g, noCode, acts, acts', i, m, e, n);
      SameSkip(g, noCode, acts, acts', i, m, e, n);
      while Skippable(g, noCode, acts'[i])
        invariant |acts'| == |acts| && Midway(g, noCode, acts, acts', i, m, e, n) && PassTo(g, noCode, acts, acts', i, s)
        invariant m < |acts| && acts'[i] == Becomes(acts, i, m) && (Skippable(g, noCode, acts'[i]) <==> Skippable(g, noCode, acts[m]))
        invariant (Skippable(g, noCode, acts'[i]) <==> n > 0) && (n == 0 ==> DoneUpTo(g, noCode, acts, acts', i + 1))
        decreases n
      {
        var j := FindOther(acts', i, g.rules[acts'[i].arg].lhs);
        m, n := OneTurn(g, noCode, acts, acts', i, m, e, n);
        PassMore(g, noCode, Going(acts, 0), s);
        acts', s := acts'[i := acts'[i].(kind := acts'[j].kind, arg := acts'[j].arg)], s + 1;
        MidwayMeans(g, noCode, acts, acts', i, m, e, n);
        SameSkip(g, noCode, acts, acts', i, m, e, n);
      }
      PassMore(g, noCode, Going(acts, 0), s);
      s := s + 1;
    }
  }

  lemma NothingDone(g: Grammar, noCode: seq<bool>, acts: seq<Action>)
    ensures DoneUpTo(g, noCode, acts, acts, 0) && PassTo(g, noCode, acts, acts, 0, 0)
  {
  }

  // ----- what it means for the table

  /** By `n` rules to be skipped the goto on `c` comes to that on `d`. */
  ghost predicate Skips(g: Grammar, noCode: seq<bool>, tb: Table, q: nat, c: nat, d: nat, n: nat)
    decreases n
  {
    if n == 0 then c == d
    else
      var act := Lookup(tb, q, c);
      && act.Reduce? && Idle(g, noCode, act.rule) && g.rules[act.rule].rhs == [Sym(c)] && g.nterminal <= c
      && Skips(g, noCode, tb, q, g.rules[act.rule].lhs, d, n - 1)
  }

  ghost predicate SkipsTo(g: Grammar, noCode: seq<bool>, tb: Table, tb': Table, q: nat, c: nat) {
    exists d: nat, n: nat :: Skips(g, noCode, tb, q, c, d, n) && Lookup(tb', q, c) == Lookup(tb, q, d)
  }

  /** Table `tb'` is `tb` with the gotos that only skip replaced by those they come to. */
  ghost predicate WithoutUnits(g: Grammar, noCode: seq<bool>, n: nat, tb: Table, tb': Table) {
    && |tb| == |tb'| == n
    && (forall q: nat, c: nat :: q < n && c < g.nterminal ==> Lookup(tb', q, c) == Lookup(tb, q, c))
    && (forall q: nat, c: nat :: q < n ==> SkipsTo(g, noCode, tb, tb', q, c))
  }

  lemma EntryIs(g: Grammar, ap: seq<seq<Action>>, q: nat, x: Action)
    requires q < |ap| && OneEmitted(ap[q]) && x in ap[q] && x.sp < g.nsymbol && Emitted(x.kind)
    ensures x.sp in Entries(g, ap[q]) && Lookup(TableOf(g, ap), q, x.sp) == Decode(g, x)
  {
    EntriesAre(g, ap[q], x.sp);
  }

  lemma {:induction false} ChainSkips(g: Grammar, noCode: seq<bool>, ap: seq<seq<Action>>, q: nat, i: nat, e: nat, n: nat)
    requires q < |ap| && ListFits(g, noCode, ap[q]) && EndsIn(g, noCode, ap[q], i, e, n) && ap[q][i].sp < g.nsymbol
    ensures Skips(g, noCode, TableOf(g, ap), q, ap[q][i].sp, ap[q][e].sp, n) && ap[q][e].sp < g.nsymbol
    decreases n
  {
    hide Lookup, TableOf, Entries, DistinctIds, OneEmitted, ChainsEnd;
    if n > 0 {
      var acts, x := ap[q], ap[q][i];
      var j: nat :| j < |acts| && acts[j].sp == g.rules[x.arg].lhs && EndsIn(g, noCode, acts, j, e, n - 1);
      assert x in acts && WfRule(g, g.rules[x.arg]);
      ChainSkips(g, noCode, ap, q, j, e, n - 1);
      EntryIs(g, ap, q, x);
    }
  }

  /** An entry after the pass: on a token as it was, on a nonterminal the action of another nonterminal. */
  lemma EntryAfter(g: Grammar, noCode: seq<bool>, acts: seq<Action>, acts': seq<Action>, i: nat) returns (e: nat, n: nat)
    requires ListFits(g, noCode, acts) && DoneUpTo(g, noCode, acts, acts', |acts|) && i < |acts|
    ensures EndsIn(g, noCode, acts, i, e, n) && acts'[i] == Becomes(acts, i, e) && acts'[i].sp == acts[i].sp && acts'[i].id == acts[i].id
    ensures acts[i].sp < g.nterminal ==> acts'[i] == acts[i]
    ensures acts[i].sp >= g.nterminal ==> acts[e].sp >= g.nterminal && Emitted(acts[i].kind) && Emitted(acts'[i].kind)
    ensures acts[i].sp >= g.nsymbol ==> acts'[i] == acts[i]
  {
    assert Done(g, noCode, acts, i, acts'[i]);
    e, n :| EndsIn(g, noCode, acts, i, e, n) && acts'[i] == Becomes(acts, i, e);
    assert acts[i] in acts && acts[e] in acts;
    if acts[i].sp >= g.nterminal {
      EndRank(g, noCode, acts, i, e, n);
    }
    if Skippable(g, noCode, acts[i]) {
      assert WfRule(g, g.rules[acts[i].arg]) && Sym(acts[i].sp) in g.rules[acts[i].arg].rhs;
      assert WfSymbol(g, Sym(acts[i].sp));
    }
  }

  lemma ListAfter(g: Grammar, noCode: seq<bool>, acts: seq<Action>, acts': seq<Action>)
    requires ListFits(g, noCode, acts) && DoneUpTo(g, noCode, acts, acts', |acts|)
    ensures OneEmitted(acts') && DistinctIds(acts') && |acts'| == |acts|
    ensures forall i :: 0 <= i < |acts| ==> acts'[i].sp == acts[i].sp && (Emitted(acts'[i].kind) <==> Emitted(acts[i].kind))
  {
    hide EndsIn, ListFits, Becomes;
    FitsMeans(g, noCode, acts);
    forall i: nat | i < |acts| ensures acts'[i].sp == acts[i].sp && acts'[i].id == acts[i].id
      ensures Emitted(acts'[i].kind) <==> Emitted(acts[i].kind)
    {
      var e, n := EntryAfter(g, noCode, acts, acts', i);
    }
    UniqueAfter(acts, acts');
  }

  lemma UniqueAfter(acts: seq<Action>, acts': seq<Action>)
    requires |acts'| == |acts| && OneEmitted(acts) && DistinctIds(acts)
    requires forall i :: 0 <= i < |acts| ==>
      acts'[i].sp == acts[i].sp && acts'[i].id == acts[i].id && (Emitted(acts'[i].kind) <==> Emitted(acts[i].kind))
    ensures OneEmitted(acts') && DistinctIds(acts')
  {
    forall x, y | x in acts' && y in acts' && x.sp == y.sp && Emitted(x.kind) && Emitted(y.kind) ensures x == y {
      var i :| 0 <= i < |acts'| && acts'[i] == x;
      var j :| 0 <= j < |acts'| && acts'[j] == y;
      assert acts[i] in acts && acts[j] in acts;
    }
  }

  lemma RowAfter(g: Grammar, noCode: seq<bool>, ap: seq<seq<Action>>, ap': seq<seq<Action>>, q: nat, c: nat)
    requires |ap'| == |ap| && q < |ap| && ListFits(g, noCode, ap[q]) && DoneUpTo(g, noCode, ap[q], ap'[q], |ap[q]|)
    ensures SkipsTo(g, noCode, TableOf(g, ap), TableOf(g, ap'), q, c)
    ensures c < g.nterminal ==> Lookup(TableOf(g, ap'), q, c) == Lookup(TableOf(g, ap), q, c)
    ensures c in Entries(g, ap'[q]) <==> c in Entries(g, ap[q])
  {
    hide ListFits, DoneUpTo, EndsIn, Skips, Lookup;
    var acts, acts' := ap[q], ap'[q];
    FitsMeans(g, noCode, acts);
    ListAfter(g, noCode, acts, acts');
    LookupRow(g, ap, q, c);
    LookupRow(g, ap', q, c);
    EntriesAre(g, acts, c);
    EntriesAre(g, acts', c);
    SameDefault(g, noCode, acts, acts');
    if i: nat :| i < |acts| && acts[i].sp == c < g.nsymbol && Emitted(acts[i].kind) {
      OneEntryAfter(g, noCode, ap, ap', q, i);
    } else {
      NoEntry(acts, acts', c, g.nsymbol);
      assert Skips(g, noCode, TableOf(g, ap), q, c, c, 0) by {
        SkipsNone(g, noCode, TableOf(g, ap), q, c);
      }
    }
  }

  lemma SkipsNone(g: Grammar, noCode: seq<bool>, tb: Table, q: nat, c: nat)
    ensures Skips(g, noCode, tb, q, c, c, 0)
  {
  }

  lemma NoEntry(acts: seq<Action>, acts': seq<Action>, c: nat, nsymbol: nat)
    requires |acts'| == |acts| && forall i :: 0 <= i < |acts| ==> acts'[i].sp == acts[i].sp && (Emitted(acts'[i].kind) <==> Emitted(acts[i].kind))
    requires forall i: nat :: i < |acts| && acts[i].sp == c < nsymbol ==> !Emitted(acts[i].kind)
    ensures forall x :: x in acts && x.sp == c < nsymbol ==> !Emitted(x.kind)
    ensures forall x :: x in acts' && x.sp == c < nsymbol ==> !Emitted(x.kind)
  {
    forall x | x in acts' && x.sp == c < nsymbol ensures !Emitted(x.kind) {
      var i :| 0 <= i < |acts'| && acts'[i] == x;
    }
    forall x | x in acts && x.sp == c < nsymbol ensures !Emitted(x.kind) {
      var i :| 0 <= i < |acts| && acts[i] == x;
    }
  }

  lemma FitsMeans(g: Grammar, noCode: seq<bool>, acts: seq<Action>)
    requires ListFits(g, noCode, acts)
    ensures WfGrammar(g) && OneEmitted(acts) && DistinctIds(acts)
  {
  }

  lemma SameDefault(g: Grammar, noCode: seq<bool>, acts: seq<Action>, acts': seq<Action>)
    requires ListFits(g, noCode, acts) && DoneUpTo(g, noCode, acts, acts', |acts|)
    ensures Default(g, acts') == Default(g, acts)
  {
    hide ListFits, DoneUpTo, EndsIn, Becomes;
    FitsMeans(g, noCode, acts);
    ListAfter(g, noCode, acts, acts');
    DefaultIs(g, acts);
    DefaultIs(g, acts');
    if i: nat :| i < |acts| && acts[i].sp == g.nsymbol && Emitted(acts[i].kind) {
      assert acts'[i] == acts[i] by {
        var e, n := EntryAfter(g, noCode, acts, acts', i);
      }
      assert acts[i] in acts && acts'[i] in acts';
    } else {
      forall x | x in acts' && Emitted(x.kind) ensures x.sp != g.nsymbol {
        var i :| 0 <= i < |acts'| && acts'[i] == x;
      }
    }
  }

  lemma OneEntryAfter(g: Grammar, noCode: seq<bool>, ap: seq<seq<Action>>, ap': seq<seq<Action>>, q: nat, i: nat)
    requires |ap'| == |ap| && q < |ap| && ListFits(g, noCode, ap[q]) && DoneUpTo(g, noCode, ap[q], ap'[q], |ap[q]|)
    requires i < |ap[q]| && ap[q][i].sp < g.nsymbol && Emitted(ap[q][i].kind)
    ensures var c := ap[q][i].sp;
      && SkipsTo(g, noCode, TableOf(g, ap), TableOf(g, ap'), q, c)
      && (c < g.nterminal ==> Lookup(TableOf(g, ap'), q, c) == Lookup(TableOf(g, ap), q, c))
      && c in Entries(g, ap'[q]) && c in Entries(g, ap[q])
  {
    hide ListFits, DoneUpTo, EndsIn, Skips, Lookup, Entries;
    var acts, acts', c := ap[q], ap'[q], ap[q][i].sp;
    FitsMeans(g, noCode, acts);
    ListAfter(g, noCode, acts, acts');
    var e, n := EntryAfter(g, noCode, acts, acts', i);
    EndInside(g, noCode, acts, i, e, n);
    ChainSkips(g, noCode, ap, q, i, e, n);
    assert acts[i] in acts && acts'[i] in acts' && acts[e] in acts;
    EntryIs(g, ap, q, acts[i]);
    EntryIs(g, ap', q, acts'[i]);
    if c >= g.nterminal {
      EntryIs(g, ap, q, acts[e]);
    }
  }

  lemma EndInside(g: Grammar, noCode: seq<bool>, acts: seq<Action>, i: nat, e: nat, n: nat)
    requires EndsIn(g, noCode, acts, i, e, n)
    ensures e < |acts| && (acts[i].sp < g.nterminal ==> e == i)
  {
  }

  /** All states' lists. */
  lemma UnitTables(g: Grammar, noCode: seq<bool>, ap: seq<seq<Action>>, ap': seq<seq<Action>>)
    requires |ap'| == |ap| && forall q: nat :: q < |ap| ==> ListFits(g, noCode, ap[q]) && DoneUpTo(g, noCode, ap[q], ap'[q], |ap[q]|)
    ensures WithoutUnits(g, noCode, |ap|, TableOf(g, ap), TableOf(g, ap'))
    ensures forall q: nat, c: nat :: q < |ap| ==> (c in Entries(g, ap'[q]) <==> c in Entries(g, ap[q]))
  {
    hide ListFits, DoneUpTo, SkipsTo, Lookup, Entries;
    forall q: nat, c: nat | q < |ap|
      ensures SkipsTo(g, noCode, TableOf(g, ap), TableOf(g, ap'), q, c)
      ensures c < g.nterminal ==> Lookup(TableOf(g, ap'), q, c) == Lookup(TableOf(g, ap), q, c)
      ensures c in Entries(g, ap'[q]) <==> c in Entries(g, ap[q])
    {
      RowAfter(g, noCode, ap, ap', q, c);
    }
  }

  /** Afterwards no goto reduces by a rule with one symbol and no code. */
  lemma NoneLeft(g: Grammar, noCode: seq<bool>, acts: seq<Action>, acts': seq<Action>)
    requires ListFits(g, noCode, acts) && DoneUpTo(g, noCode, acts, acts', |acts|)
    ensures forall x :: x in acts' && x.kind.SHIFTREDUCE? && x.sp >= g.nterminal && x.arg < |g.rules| && x.arg < |noCode| ==>
              |g.rules[x.arg].rhs| != 1 || !noCode[x.arg]
  {
    hide ListFits, DoneUpTo;
    ListAfter(g, noCode, acts, acts');
    forall x | x in acts' && x.sp >= g.nterminal ensures !Skippable(g, noCode, x) {
      var i: nat :| i < |acts'| && acts'[i] == x;
      var e, n := EntryAfter(g, noCode, acts, acts', i);
      EndsThere(g, noCode, acts, i, e, n);
    }
  }

  lemma {:induction false} EndsThere(g: Grammar, noCode: seq<bool>, acts: seq<Action>, i: nat, e: nat, n: nat)
    requires EndsIn(g, noCode, acts, i, e, n)
    ensures e < |acts| && !Skippable(g, noCode, acts[e])
    decreases n
  {
    if n > 0 {
      var j: nat :| j < |acts| && acts[j].sp == g.rules[acts[i].arg].lhs && EndsIn(g, noCode, acts, j, e, n - 1);
      EndsThere(g, noCode, acts, j, e, n - 1);
    }
  }

  /** The last pass of CompressTables, over all states. */
  method SkipAllUnits(g: Grammar, noCode: seq<bool>, ap: seq<seq<Action>>) returns (ap': seq<seq<Action>>)
    requires forall q: nat :: q < |ap| ==> ListFits(g, noCode, ap[q])
    ensures |ap'| == |ap| && WithoutUnits(g, noCode, |ap|, TableOf(g, ap), TableOf(g, ap'))
    ensures forall q: nat :: q < |ap| ==> DoneUpTo(g, noCode, ap[q], ap'[q], |ap[q]|)
    ensures forall q: nat, c: nat :: q < |ap| ==> (c in Entries(g, ap'[q]) <==> c in Entries(g, ap[q]))
    ensures forall q: nat :: q < |ap| ==> OneEmitted(ap'[q]) && DistinctIds(ap'[q]) && SameShape(ap[q], ap'[q])
  {
    hide ListFits, DoneUpTo, WithoutUnits, OneEmitted, DistinctIds, SameShape;
    ap' := [];
    for q := 0 to |ap|
      invariant |ap'| == q
      invariant forall k: nat :: k < q ==> DoneUpTo(g, noCode, ap[k], ap'[k], |ap[k]|)
    {
      var acts := SkipUnits(g, noCode, ap[q]);
      ap' := ap' + [acts];
    }
    UnitTables(g, noCode, ap, ap');
    forall q: nat | q < |ap| ensures OneEmitted(ap'[q]) && DistinctIds(ap'[q]) && SameShape(ap[q], ap'[q]) {
      ShapeAfter(g, noCode, ap[q], ap'[q]);
    }
  }

  /** The same symbols have an entry, in the same order. */
  ghost predicate SameShape(acts: seq<Action>, acts': seq<Action>) {
    && |acts'| == |acts|
    && forall i :: 0 <= i < |acts| ==> acts'[i].sp == acts[i].sp && (Emitted(acts'[i].kind) <==> Emitted(acts[i].kind))
  }

  lemma ShapeAfter(g: Grammar, noCode: seq<bool>, acts: seq<Action>, acts': seq<Action>)
    requires ListFits(g, noCode, acts) && DoneUpTo(g, noCode, acts, acts', |acts|)
    ensures OneEmitted(acts') && DistinctIds(acts') && SameShape(acts, acts')
  {
    ListAfter(g, noCode, acts, acts');
  }
}
