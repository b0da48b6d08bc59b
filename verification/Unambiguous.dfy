/** Without conflicts there is one reading. */
module Unambiguous {
  // Why a table without conflicts leaves no room for the parser to loop: the run on a sentence is the one way to read it.

  import opened Grammars
  import opened FirstSets
  import opened Driver
  import opened LrTheory
  import opened Termination

  // ----- when a tree is read

  /** Two parse trees of the same sentence are of the same size. */
  lemma SameSize(g: Grammar, a: Automaton, la: Follow, tb: Table, s: Tree, t: Tree)
    requires Right(g, a, la, tb) && ValidTree(g, s) && ValidTree(g, t) && Root(g, s) == Root(g, t) == g.start
    requires Yield(s) == Yield(t)
    ensures TreeSize(s) == TreeSize(t)
  {
    hide Right, Run, ValidTree;
    var m, p := SentenceRead(g, a, la, tb, s);
    var m', p' := SentenceRead(g, a, la, tb, t);
    var c := Running(Fresh, Yield(s));
    NotBoth(g, tb, c, TreeSize(s), TreeSize(t));
    NotBoth(g, tb, c, TreeSize(t), TreeSize(s));
  }

  lemma NotBoth(g: Grammar, tb: Table, c: Config, m: nat, n: nat)
    requires Run(g, tb, c, m + 1).Halted? && Run(g, tb, c, n).Running?
    ensures n <= m
  {
    if m < n {
      RunPlus(g, tb, c, m + 1, n - m - 1);
      StaysHalted(g, tb, Run(g, tb, c, m + 1), n - m - 1);
    }
  }

  /** The number of steps before the `k`-th token is shifted. */
  ghost function Before(ts: seq<Tree>, k: nat): nat
    decreases ts
  {
    if ts == [] then 0
    else if k >= |Yield(ts[0])| then TreeSize(ts[0]) + Before(ts[1..], k - |Yield(ts[0])|)
    else match ts[0]
      case Leaf(_) => 0
      case Node(_, kids) => Before(kids, k)
  }

  lemma {:induction false} BeforeSkips(ts: seq<Tree>, us: seq<Tree>, k: nat)
    ensures Before(ts + us, |Yields(ts)| + k) == ForestSize(ts) + Before(us, k)
    decreases |ts|
  {
    if ts == [] {
      assert ts + us == us;
    } else {
      assert (ts + us)[1..] == ts[1..] + us;
      BeforeSkips(ts[1..], us, k);
    }
  }

  /** The parser is at the `k`-th token after as many steps, and shifts it in the next. */
  lemma {:induction false} ShiftTime(g: Grammar, a: Automaton, la: Follow, tb: Table,
                                     p: Parser, it: Item, ts: seq<Tree>, rest: seq<nat>, k: nat) returns (m: Parser, m': Parser)
    requires Right(g, a, la, tb) && p.stack != [] && p.stack[|p.stack| - 1].act.Shift?
    requires Has(a, TopState(p.stack), it) && WfItem(g, it) && Follows(la, TopState(p.stack), it, Ahead(rest))
    requires ValidForest(g, ts) && Spells(Roots(g, ts), g.rules[it.rule].rhs[it.dot..]) && AllTokens(g, rest)
    requires k < |Yields(ts)|
    ensures Run(g, tb, Running(p, Yields(ts) + rest), Before(ts, k)) == Running(m, (Yields(ts) + rest)[k..])
    ensures StreamStep(g, tb, Running(m, (Yields(ts) + rest)[k..])) == Running(m', (Yields(ts) + rest)[k + 1..])
    decreases ts
  {
    hide StreamStep, CompleteTable, StartIsFresh, Lr0, FollowsClosed, Fits, AllTokens;
    var q, w, more := TopState(p.stack), Yields(ts) + rest, Yields(ts[1..]) + rest;
    FirstOfForest(g, it, ts, rest);
    if k >= |Yield(ts[0])| {
      var p1, n := ReadTree(g, a, la, tb, p, it, ts, rest);
      PastFirst(g, a, la, q, it, TopState(p1.stack), Ahead(rest));
      var j := k - |Yield(ts[0])|;
      m, m' := ShiftTime(g, a, la, tb, p1, Advance(it), ts[1..], rest, j);
      RunPlus(g, tb, Running(p, w), n, Before(ts[1..], j));
      assert w[k..] == more[j..] && w[k + 1..] == more[j + 1..];
    } else {
      match ts[0]
      case Leaf(c) =>
        m := p;
        m' := ShiftLeaf(g, a, la, tb, p, it, [c] + more);
        assert w[0..] == w && w[1..] == more;
      case Node(r, kids) =>
        RulesThere(g, a, q, it, r);
        MoreTokens(g, ts[1..], rest);
        FollowOfKid(g, a, la, q, it, r, ts[1..], rest);
        assert w == Yields(kids) + more;
        m, m' := ShiftTime(g, a, la, tb, p, Item(r, 0), kids, more, k);
    }
  }

  lemma PastFirst(g: Grammar, a: Automaton, la: Follow, q: nat, it: Item, q': nat, t: nat)
    requires Lr0(g, a) && FollowsClosed(g, a, la) && Has(a, q, it) && Shiftable(g, it)
    requires Goes(a, q, After(g, it), q') && Follows(la, q, it, t)
    ensures Has(a, q', Advance(it)) && WfItem(g, Advance(it)) && Follows(la, q', Advance(it), t)
    ensures g.rules[it.rule].rhs[it.dot..][1..] == g.rules[it.rule].rhs[it.dot + 1..]
  {
    assert ForwardAt(g, a, q, it) && CarriedAt(g, a, la, q, it, q', t) && WfAt(g, a, q', Advance(it));
  }

  // ----- up to a token, the run does not depend on what comes after it

  lemma {:induction false} RestShrinks(g: Grammar, tb: Table, c: Config, n: nat)
    requires c.Running? && Run(g, tb, c, n).Running?
    ensures |Run(g, tb, c, n).rest| <= |c.rest|
    decreases n
  {
    hide LoopStep;
    if n > 0 {
      var s := StreamStep(g, tb, c);
      if s.Running? {
        RestShrinks(g, tb, s, n - 1);
      } else {
        StaysHalted(g, tb, s, n - 1);
      }
    }
  }

  lemma {:induction false} SameUpTo(g: Grammar, tb: Table, p: Parser, v: seq<nat>, w: seq<nat>, k: nat, n: nat, p': Parser)
    requires k < |v| && k < |w| && v[..k + 1] == w[..k + 1]
    requires Run(g, tb, Running(p, v), n) == Running(p', v[k..])
    ensures Run(g, tb, Running(p, w), n) == Running(p', w[k..])
    decreases n
  {
    hide LoopStep;
    if n == 0 {
      assert |v| == |v[k..]|;
      assert v[0..] == v && w[0..] == w;
    } else {
      assert v[0] == v[..k + 1][0] == w[..k + 1][0] == w[0];
      var o := LoopStep(g, tb, p, v[0]);
      if o.Consumed? {
        RestShrinks(g, tb, Running(o.p, v[1..]), n - 1);
        assert k > 0;
        assert v[1..][..k] == v[..k + 1][1..] == w[..k + 1][1..] == w[1..][..k];
        assert v[1..][k - 1..] == v[k..] && w[1..][k - 1..] == w[k..];
        SameUpTo(g, tb, o.p, v[1..], w[1..], k - 1, n - 1, p');
      } else if o.Again? {
        SameUpTo(g, tb, o.p, v, w, k, n - 1, p');
      } else {
        StaysHalted(g, tb, Halted(o), n - 1);
      }
    }
  }

  /** Two sentences that agree up to their `k`-th token have it shifted at the same time. */
  lemma SameTime(g: Grammar, a: Automaton, la: Follow, tb: Table, s: Tree, t: Tree, k: nat)
    requires Right(g, a, la, tb) && ValidTree(g, s) && ValidTree(g, t) && Root(g, s) == Root(g, t) == g.start
    requires k < |Yield(s)| && k < |Yield(t)| && Yield(s)[..k + 1] == Yield(t)[..k + 1]
    ensures Before([s], k) <= Before([t], k)
  {
    hide Right, Run, StreamStep;
    var m, m' := SentenceShift(g, a, la, tb, s, k);
    var l, l' := SentenceShift(g, a, la, tb, t, k);
    var v, w, n := Yield(s), Yield(t), Before([t], k);
    if n < Before([s], k) {
      SameUpTo(g, tb, Fresh, w, v, k, n, l);
      StepAlike(g, tb, l, w[k..], v[k..], l');
      RunPlus(g, tb, Running(Fresh, v), n, 1);
      OneStep(g, tb, Running(l, v[k..]));
      RunPlus(g, tb, Running(Fresh, v), n + 1, Before([s], k) - n - 1);
      RestShrinks(g, tb, Running(l', v[k..][1..]), Before([s], k) - n - 1);
    }
  }

  lemma OneStep(g: Grammar, tb: Table, c: Config)
    ensures Run(g, tb, c, 1) == StreamStep(g, tb, c)
  {
  }

  lemma StepAlike(g: Grammar, tb: Table, p: Parser, v: seq<nat>, w: seq<nat>, p': Parser)
    requires v != [] && w != [] && v[0] == w[0] && StreamStep(g, tb, Running(p, v)) == Running(p', v[1..])
    ensures StreamStep(g, tb, Running(p, w)) == Running(p', w[1..])
  {
    hide LoopStep;
    assert |v[1..]| < |v|;
  }

  lemma SentenceShift(g: Grammar, a: Automaton, la: Follow, tb: Table, t: Tree, k: nat) returns (m: Parser, m': Parser)
    requires Right(g, a, la, tb) && ValidTree(g, t) && Root(g, t) == g.start && k < |Yield(t)|
    ensures Run(g, tb, Running(Fresh, Yield(t)), Before([t], k)) == Running(m, Yield(t)[k..])
    ensures StreamStep(g, tb, Running(m, Yield(t)[k..])) == Running(m', Yield(t)[k + 1..])
  {
    hide CompleteTable, FollowsClosed, Lr0, StartIsFresh, StreamStep, Run;
    NodeOfStart(g, t);
    StartThere(g, a, la, tb, t.rule);
    assert g.rules[t.rule].rhs[0..] == g.rules[t.rule].rhs;
    assert Yields(t.kids) + [] == Yield(t);
    m, m' := ShiftTime(g, a, la, tb, Fresh, Item(t.rule, 0), t.kids, [], k);
  }

  // ----- a tree inside a sentence

  ghost predicate Alive(g: Grammar, x: Symbol) {
    exists t :: ValidTree(g, t) && Fits(Root(g, t), x)
  }

  /** All that the rules in use ask for can be completed to tokens. */
  ghost predicate Useful(g: Grammar) {
    forall r: nat, i: nat :: r < |g.rules| && i < |g.rules[r].rhs| && Reachable(g, g.rules[r].lhs) ==> Alive(g, g.rules[r].rhs[i])
  }

  lemma {:induction false} AliveForest(g: Grammar, xs: seq<Symbol>) returns (ts: seq<Tree>)
    requires forall i :: 0 <= i < |xs| ==> Alive(g, xs[i])
    ensures ValidForest(g, ts) && Spells(Roots(g, ts), xs)
    decreases |xs|
  {
    if xs == [] {
      ts := [];
    } else {
      assert Alive(g, xs[0]);
      var t :| ValidTree(g, t) && Fits(Root(g, t), xs[0]);
      var us := AliveForest(g, xs[1..]);
      ts := [t] + us;
      assert ts[1..] == us;
      forall i | 0 <= i < |xs| ensures Fits(Roots(g, ts)[i], xs[i]) {
        assert i > 0 ==> Roots(g, ts)[i] == Roots(g, us)[i - 1] && xs[i] == xs[1..][i - 1];
      }
    }
  }

  lemma {:induction false} VanishedForest(g: Grammar, xs: seq<Symbol>) returns (ts: seq<Tree>)
    requires NullableSeq(g, xs)
    ensures ValidForest(g, ts) && Spells(Roots(g, ts), xs) && Yields(ts) == []
  {
    var n := NullableBound(g, xs);
    ts := VanishingForest(g, xs, n);
  }

  /** `t` with a parent by rule `r`, between the trees `pre` and `post`. */
  ghost function Around(r: nat, pre: seq<Tree>, t: Tree, post: seq<Tree>): Tree {
    Node(r, pre + ([t] + post))
  }

  lemma AroundSpells(g: Grammar, r: nat, pre: seq<Tree>, t: Tree, post: seq<Tree>)
    requires r < |g.rules| && |pre| < |g.rules[r].rhs| && Fits(Root(g, t), g.rules[r].rhs[|pre|])
    requires Spells(Roots(g, pre), g.rules[r].rhs[..|pre|]) && Spells(Roots(g, post), g.rules[r].rhs[|pre| + 1..])
    ensures Spells(Roots(g, pre + ([t] + post)), g.rules[r].rhs)
  {
    var rhs, kids := g.rules[r].rhs, pre + ([t] + post);
    forall i | 0 <= i < |rhs| ensures Fits(Roots(g, kids)[i], rhs[i]) {
      if i < |pre| {
        assert kids[i] == pre[i] && Fits(Roots(g, pre)[i], rhs[..|pre|][i]);
      } else if i > |pre| {
        assert kids[i] == post[i - |pre| - 1] && Fits(Roots(g, post)[i - |pre| - 1], rhs[|pre| + 1..][i - |pre| - 1]);
      }
    }
  }

  lemma AroundYield(g: Grammar, pre: seq<Tree>, t: Tree, post: seq<Tree>)
    ensures var kids := pre + ([t] + post);
      && (ValidForest(g, kids) <==> ValidForest(g, pre) && ValidTree(g, t) && ValidForest(g, post))
      && Yields(kids) == Yields(pre) + Yield(t) + Yields(post)
      && ForestSize(kids) == ForestSize(pre) + TreeSize(t) + ForestSize(post)
  {
    hide ValidTree, Yield, TreeSize;
    ForestConcat(g, pre, [t] + post);
    assert ([t] + post)[0] == t && ([t] + post)[1..] == post;
    assert Yields(pre) + (Yield(t) + Yields(post)) == Yields(pre) + Yield(t) + Yields(post);
  }

  lemma AroundBefore(r: nat, pre: seq<Tree>, t: Tree, post: seq<Tree>, k: nat)
    requires k < |Yield(t)| && Yields(pre + ([t] + post)) == Yields(pre) + Yield(t) + Yields(post)
    ensures Before([Around(r, pre, t, post)], |Yields(pre)| + k) == ForestSize(pre) + Before([t], k)
  {
    BeforeSkips(pre, [t] + post, k);
    assert ([t] + post)[0] == t == [t][0];
  }

  lemma AroundIs(g: Grammar, r: nat, pre: seq<Tree>, t: Tree, post: seq<Tree>)
    requires r < |g.rules| && |pre| < |g.rules[r].rhs| && ValidForest(g, pre) && ValidForest(g, post) && ValidTree(g, t)
    requires Spells(Roots(g, pre), g.rules[r].rhs[..|pre|]) && Spells(Roots(g, post), g.rules[r].rhs[|pre| + 1..])
    requires Fits(Root(g, t), g.rules[r].rhs[|pre|])
    ensures var s := Around(r, pre, t, post);
      && ValidTree(g, s) && Root(g, s) == g.rules[r].lhs
      && Yield(s) == Yields(pre) + Yield(t) + Yields(post)
      && TreeSize(s) == ForestSize(pre) + TreeSize(t) + ForestSize(post) + 1
    ensures forall k: nat :: k < |Yield(t)| ==>
      Before([Around(r, pre, t, post)], |Yields(pre)| + k) == ForestSize(pre) + Before([t], k)
  {
    hide ValidForest, Yields, ForestSize, Before, Spells;
    AroundSpells(g, r, pre, t, post);
    AroundYield(g, pre, t, post);
    forall k: nat | k < |Yield(t)| ensures Before([Around(r, pre, t, post)], |Yields(pre)| + k) == ForestSize(pre) + Before([t], k) {
      AroundBefore(r, pre, t, post, k);
    }
  }

  /** What holds of two trees put into the same place. */
  ghost predicate Placed(s: Tree, t: Tree, u: seq<nat>, z: seq<nat>, size: nat, steps: nat) {
    && Yield(s) == u + Yield(t) + z && TreeSize(s) == TreeSize(t) + size
    && forall k: nat :: k < |Yield(t)| ==> Before([s], |u| + k) == steps + Before([t], k)
  }

  lemma PlacedTwice(s: Tree, t: Tree, t0: Tree, u: seq<nat>, z: seq<nat>, size: nat, steps: nat,
                    u0: seq<nat>, z0: seq<nat>, size0: nat, steps0: nat)
    requires Placed(s, t, u, z, size, steps) && Placed(t, t0, u0, z0, size0, steps0)
    ensures Placed(s, t0, u + u0, z0 + z, size + size0, steps + steps0)
  {
    assert u + (u0 + Yield(t0) + z0) + z == u + u0 + Yield(t0) + (z0 + z);
    forall k: nat | k < |Yield(t0)| ensures Before([s], |u + u0| + k) == steps + steps0 + Before([t0], k) {
      assert Before([s], |u| + (|u0| + k)) == steps + Before([t], |u0| + k);
    }
  }

  /** A place for two trees of a nonterminal in use, in two sentences that are otherwise the same. */
  lemma {:induction false} Plug(g: Grammar, c: nat, n: nat, t1: Tree, t2: Tree)
    returns (s1: Tree, s2: Tree, u: seq<nat>, z: seq<nat>, size: nat, steps: nat)
    requires Useful(g) && ReachIn(g, c, n)
    requires ValidTree(g, t1) && Root(g, t1) == c && ValidTree(g, t2) && Root(g, t2) == c
    ensures ValidTree(g, s1) && Root(g, s1) == g.start && Placed(s1, t1, u, z, size, steps)
    ensures ValidTree(g, s2) && Root(g, s2) == g.start && Placed(s2, t2, u, z, size, steps)
    decreases n
  {
    hide ValidTree, Useful, Placed;
    if n == 0 {
      s1, s2, u, z, size, steps := t1, t2, [], [], 0, 0;
      PlacedAlone(t1);
      PlacedAlone(t2);
    } else {
      var r: nat :| OccursIn(g, r, c) && ReachIn(g, g.rules[r].lhs, n - 1);
      assert Reachable(g, g.rules[r].lhs);
      var i :| 0 <= i < |g.rules[r].rhs| && g.rules[r].rhs[i] == Sym(c);
      var pre, post := Siblings(g, r, i);
      AroundPlaced(g, r, pre, t1, post);
      AroundPlaced(g, r, pre, t2, post);
      var p1, p2 := Around(r, pre, t1, post), Around(r, pre, t2, post);
      s1, s2, u, z, size, steps := Plug(g, g.rules[r].lhs, n - 1, p1, p2);
      var size0 := ForestSize(pre) + ForestSize(post) + 1;
      PlacedTwice(s1, p1, t1, u, z, size, steps, Yields(pre), Yields(post), size0, ForestSize(pre));
      PlacedTwice(s2, p2, t2, u, z, size, steps, Yields(pre), Yields(post), size0, ForestSize(pre));
      u, z, size, steps := u + Yields(pre), Yields(post) + z, size + size0, steps + ForestSize(pre);
    }
  }

  lemma PlacedAlone(t: Tree)
    ensures Placed(t, t, [], [], 0, 0)
  {
    assert [] + Yield(t) + [] == Yield(t);
  }

  lemma AroundPlaced(g: Grammar, r: nat, pre: seq<Tree>, t: Tree, post: seq<Tree>)
    requires r < |g.rules| && |pre| < |g.rules[r].rhs| && ValidForest(g, pre) && ValidForest(g, post) && ValidTree(g, t)
    requires Spells(Roots(g, pre), g.rules[r].rhs[..|pre|]) && Spells(Roots(g, post), g.rules[r].rhs[|pre| + 1..])
    requires Fits(Root(g, t), g.rules[r].rhs[|pre|])
    ensures var s := Around(r, pre, t, post);
      && ValidTree(g, s) && Root(g, s) == g.rules[r].lhs
      && Placed(s, t, Yields(pre), Yields(post), ForestSize(pre) + ForestSize(post) + 1, ForestSize(pre))
  {
    AroundIs(g, r, pre, t, post);
  }

  lemma Siblings(g: Grammar, r: nat, i: nat) returns (pre: seq<Tree>, post: seq<Tree>)
    requires Useful(g) && r < |g.rules| && Reachable(g, g.rules[r].lhs) && i < |g.rules[r].rhs|
    ensures ValidForest(g, pre) && Spells(Roots(g, pre), g.rules[r].rhs[..i]) && |pre| == i
    ensures ValidForest(g, post) && Spells(Roots(g, post), g.rules[r].rhs[i + 1..])
  {
    forall k | 0 <= k < |g.rules[r].rhs| ensures Alive(g, g.rules[r].rhs[k]) {
    }
    pre := AliveForest(g, g.rules[r].rhs[..i]);
    post := AliveForest(g, g.rules[r].rhs[i + 1..]);
  }

  /** No nonterminal in use has two trees with the same frontier but of different sizes, or two trees whose frontiers
      begin with the same token but which shift it at different times. */
  lemma OneReading(g: Grammar, a: Automaton, la: Follow, tb: Table, c: nat, t1: Tree, t2: Tree)
    requires Right(g, a, la, tb) && Useful(g) && Reachable(g, c)
    requires ValidTree(g, t1) && Root(g, t1) == c && ValidTree(g, t2) && Root(g, t2) == c
    ensures Yield(t1) == Yield(t2) ==> TreeSize(t1) == TreeSize(t2)
    ensures Yield(t1) != [] && Yield(t2) != [] && Yield(t1)[0] == Yield(t2)[0] ==> Before([t1], 0) == Before([t2], 0)
  {
    hide Right, Useful, ValidTree, Before;
    var n: nat :| ReachIn(g, c, n);
    var s1, s2, u, z, size, steps := Plug(g, c, n, t1, t2);
    if Yield(t1) == Yield(t2) {
      SameSize(g, a, la, tb, s1, s2);
    }
    if Yield(t1) != [] && Yield(t2) != [] && Yield(t1)[0] == Yield(t2)[0] {
      var k := |u|;
      assert Yield(s1)[..k + 1] == u + [Yield(t1)[0]] == Yield(s2)[..k + 1];
      SameTime(g, a, la, tb, s1, s2, k);
      SameTime(g, a, la, tb, s2, s1, k);
      assert Before([s1], |u| + 0) == steps + Before([t1], 0) && Before([s2], |u| + 0) == steps + Before([t2], 0);
    }
  }

  // ----- what comes back has two readings

  /** A tree of `d` as the first part of one of `c`. */
  lemma {:induction false} WrapUnit(g: Grammar, c: nat, d: nat, n: nat, t: Tree) returns (s: Tree)
    requires UnitPath(g, c, d, n) && ValidTree(g, t) && Root(g, t) == d
    ensures ValidTree(g, s) && Root(g, s) == c && Yield(s) == Yield(t) && TreeSize(s) >= TreeSize(t) + n
    decreases n
  {
    hide ValidTree;
    if n == 0 {
      s := t;
    } else {
      var e :| UnitStep(g, c, e) && UnitPath(g, e, d, n - 1);
      var r: nat :| UnitAt(g, r, c, e);
      var s1 := WrapUnit(g, e, d, n - 1, t);
      var post := VanishedForest(g, g.rules[r].rhs[1..]);
      AroundIs(g, r, [], s1, post);
      s := Around(r, [], s1, post);
    }
  }

  /** The same behind something that vanishes. */
  lemma WrapLeft(g: Grammar, r: nat, i: nat, c: nat, d: nat, t: Tree) returns (s: Tree)
    requires Useful(g) && Reachable(g, c) && LeftAt(g, r, i, c, d) && ValidTree(g, t) && Root(g, t) == d
    ensures ValidTree(g, s) && Root(g, s) == c && TreeSize(s) > TreeSize(t) && Yield(t) <= Yield(s)
    ensures Yield(t) != [] ==> Before([s], 0) >= Before([t], 0) + i
  {
    hide ValidTree;
    var pre := VanishedForest(g, g.rules[r].rhs[..i]);
    var pre', post := Siblings(g, r, i);
    AroundIs(g, r, pre, t, post);
    s := Around(r, pre, t, post);
    ManyNodes(pre);
    assert Yield(s) == Yield(t) + Yields(post);
    assert Yield(t) != [] ==> Before([s], |Yields(pre)| + 0) == ForestSize(pre) + Before([t], 0);
  }

  lemma {:induction false} ManyNodes(ts: seq<Tree>)
    ensures ForestSize(ts) >= |ts|
    decreases |ts|
  {
    if ts != [] {
      ManyNodes(ts[1..]);
    }
  }

  lemma {:induction false} WrapPath(g: Grammar, c: nat, d: nat, n: nat, t: Tree) returns (s: Tree)
    requires Useful(g) && Reachable(g, c) && LeftPath(g, c, d, n) && ValidTree(g, t) && Root(g, t) == d
    ensures ValidTree(g, s) && Root(g, s) == c && TreeSize(s) >= TreeSize(t) && Yield(t) <= Yield(s)
    ensures Yield(t) != [] ==> Before([s], 0) >= Before([t], 0)
    decreases n
  {
    hide ValidTree, Useful, Before;
    if n == 0 {
      s := t;
    } else {
      var e :| LeftStep(g, c, e) && LeftPath(g, e, d, n - 1);
      var r: nat, i: nat :| LeftAt(g, r, i, c, e);
      assert OccursIn(g, r, e);
      ReachMore(g, r, e);
      var s1 := WrapPath(g, e, d, n - 1, t);
      s := WrapLeft(g, r, i, c, e, s1);
    }
  }

  lemma {:induction false} WrapHidden(g: Grammar, c: nat, d: nat, n: nat, t: Tree) returns (s: Tree)
    requires Useful(g) && Reachable(g, c) && HiddenPath(g, c, d, n) && ValidTree(g, t) && Root(g, t) == d
    ensures ValidTree(g, s) && Root(g, s) == c && TreeSize(s) > TreeSize(t) && Yield(t) <= Yield(s)
    ensures Yield(t) != [] ==> Before([s], 0) > Before([t], 0)
    decreases n
  {
    hide ValidTree, Useful, Before;
    if e :| HiddenStep(g, c, e) && LeftPath(g, e, d, n - 1) {
      var r: nat, i: nat :| LeftAt(g, r, i, c, e) && i > 0;
      assert OccursIn(g, r, e);
      ReachMore(g, r, e);
      var s1 := WrapPath(g, e, d, n - 1, t);
      s := WrapLeft(g, r, i, c, e, s1);
    } else {
      var e :| LeftStep(g, c, e) && HiddenPath(g, e, d, n - 1);
      var r: nat, i: nat :| LeftAt(g, r, i, c, e);
      assert OccursIn(g, r, e);
      ReachMore(g, r, e);
      var s1 := WrapHidden(g, e, d, n - 1, t);
      s := WrapLeft(g, r, i, c, e, s1);
    }
  }

  lemma SomeTree(g: Grammar, r: nat) returns (t: Tree)
    requires Useful(g) && r < |g.rules| && Reachable(g, g.rules[r].lhs)
    ensures ValidTree(g, t) && Root(g, t) == g.rules[r].lhs
  {
    var kids := AliveForest(g, g.rules[r].rhs);
    t := Node(r, kids);
  }

  /** If the table does all that its automaton calls for, and all that is in use can be completed, nothing comes back. */
  lemma NothingComesBack(g: Grammar, a: Automaton, la: Follow, tb: Table)
    requires Right(g, a, la, tb) && Useful(g)
    ensures Loopless(g)
  {
    forall c | Reachable(g, c) ensures !HiddenLeft(g, c, c) && !UnitReach(g, c, c) {
      if HiddenLeft(g, c, c) {
        NotHidden(g, a, la, tb, c);
      }
      if UnitReach(g, c, c) {
        NotUnit(g, a, la, tb, c);
      }
    }
  }

  lemma NotUnit(g: Grammar, a: Automaton, la: Follow, tb: Table, c: nat)
    requires Right(g, a, la, tb) && Useful(g) && Reachable(g, c)
    ensures !UnitReach(g, c, c)
  {
    hide Right, Useful, ValidTree;
    if UnitReach(g, c, c) {
      var n: nat :| n > 0 && UnitPath(g, c, c, n);
      var e :| UnitStep(g, c, e) && UnitPath(g, e, c, n - 1);
      var r: nat :| UnitAt(g, r, c, e);
      var t := SomeTree(g, r);
      var s := WrapUnit(g, c, c, n, t);
      OneReading(g, a, la, tb, c, s, t);
      assert false;
    }
  }

  lemma NotHidden(g: Grammar, a: Automaton, la: Follow, tb: Table, c: nat)
    requires Right(g, a, la, tb) && Useful(g) && Reachable(g, c)
    ensures !HiddenLeft(g, c, c)
  {
    hide Right, Useful, ValidTree, Before;
    if HiddenLeft(g, c, c) {
      var n: nat :| HiddenPath(g, c, c, n);
      var r := FirstRuleOf(g, c, c, n);
      var t := SomeTree(g, r);
      var s := WrapHidden(g, c, c, n, t);
      OneReading(g, a, la, tb, c, s, t);
      var s' := WrapHidden(g, c, c, n, s);
      OneReading(g, a, la, tb, c, s', s);
      assert false;
    }
  }

  lemma FirstRuleOf(g: Grammar, c: nat, d: nat, n: nat) returns (r: nat)
    requires HiddenPath(g, c, d, n)
    ensures r < |g.rules| && g.rules[r].lhs == c
  {
    if e :| HiddenStep(g, c, e) && LeftPath(g, e, d, n - 1) {
      var i: nat;
      r, i :| LeftAt(g, r, i, c, e) && i > 0;
    } else {
      var e :| LeftStep(g, c, e) && HiddenPath(g, e, d, n - 1);
      var i: nat;
      r, i :| LeftAt(g, r, i, c, e);
    }
  }
}
