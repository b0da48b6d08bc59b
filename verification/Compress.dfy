/** CompressTables (tools/lemon/lemon.c): default reduces and SHIFTREDUCE actions. */
module Compress {
  // The most frequent reduce of a state becomes its default, and a shift to a state that can only reduce becomes a
  // SHIFTREDUCE.

  import opened Grammars
  import opened Driver
  import opened MergeSort
  import opened States
  import opened Conflicts
  import opened ActionLists
  import opened Wrappers

  // ----- the most frequent reduce

  function Uses(acts: seq<Action>, r: nat): nat {
    if acts == [] then 0
    else Uses(acts[1..], r) + if acts[0].kind.REDUCE? && acts[0].arg == r then 1 else 0
  }

  predicate IsStartRule(g: Grammar, r: nat) {
    r < |g.rules| && g.rules[r].lhs == g.start
  }

  lemma {:induction false} UsesConcat(a: seq<Action>, b: seq<Action>, r: nat)
    ensures Uses(a + b, r) == Uses(a, r) + Uses(b, r)
    decreases |a|
  {
    if a == [] {
      assert a + b == b;
    } else {
      assert (a + b)[1..] == a[1..] + b;
      UsesConcat(a[1..], b, r);
    }
  }

  lemma {:induction false} UsedSomewhere(acts: seq<Action>, r: nat)
    ensures Uses(acts, r) > 0 <==> exists x :: x in acts && x.kind.REDUCE? && x.arg == r
    decreases |acts|
  {
    if acts != [] {
      UsedSomewhere(acts[1..], r);
      assert acts == [acts[0]] + acts[1..];
    }
  }

  method CountFrom(acts: seq<Action>, i: nat) returns (n: nat)
    requires i < |acts| && acts[i].kind.REDUCE?
    ensures n == Uses(acts[i..], acts[i].arg)
  {
    n := 1;
    var r := acts[i].arg;
    for j := i + 1 to |acts|
      invariant n == Uses(acts[i..j], r)
    {
      assert acts[i..j + 1] == acts[i..j] + [acts[j]];
      UsesConcat(acts[i..j], [acts[j]], r);
      assert [acts[j]][1..] == [];
      if acts[j].kind.REDUCE? && acts[j].arg == r {
        n := n + 1;
      }
    }
    assert acts[i..|acts|] == acts[i..];
  }

  /** Of the rules in use as often as `r`, none is in the list before it. */
  ghost predicate FirstOfBest(g: Grammar, acts: seq<Action>, r: nat) {
    exists k :: 0 <= k < |acts| && acts[k].kind.REDUCE? && acts[k].arg == r && FewerBefore(g, acts, r, k)
  }

  ghost predicate FewerBefore(g: Grammar, acts: seq<Action>, r: nat, k: nat)
    requires k <= |acts|
  {
    forall j :: 0 <= j < k && acts[j].kind.REDUCE? && !IsStartRule(g, acts[j].arg) ==>
      Uses(acts, acts[j].arg) < Uses(acts, r)
  }

  lemma FewerSoFar(g: Grammar, acts: seq<Action>, r: nat, i: nat, n: nat)
    requires i < |acts| && acts[i].kind.REDUCE? && acts[i].arg == r && Uses(acts, r) > n
    requires forall k: nat :: !IsStartRule(g, k) && Uses(acts[..i], k) > 0 ==> Uses(acts, k) <= n
    ensures FirstOfBest(g, acts, r)
  {
    forall j | 0 <= j < i && acts[j].kind.REDUCE? ensures Uses(acts[..i], acts[j].arg) > 0 {
      assert acts[..i][j] == acts[j];
      UsedSomewhere(acts[..i], acts[j].arg);
    }
    assert FewerBefore(g, acts, r, i);
  }

  /** The rule, not of the start symbol, with the most REDUCE actions, the first of several; none if there are none. */
  method BestRule(g: Grammar, acts: seq<Action>) returns (best: Option<nat>)
    ensures best.Some? ==> !IsStartRule(g, best.value) && Uses(acts, best.value) > 0
    ensures best.Some? ==> forall r: nat :: !IsStartRule(g, r) ==> Uses(acts, r) <= Uses(acts, best.value)
    ensures best.Some? ==> FirstOfBest(g, acts, best.value)
    ensures best.None? ==> forall r: nat :: !IsStartRule(g, r) ==> Uses(acts, r) == 0
  {
    best := None;
    var nbest := 0;
    for i := 0 to |acts|
      invariant best.Some? ==> !IsStartRule(g, best.value) && nbest == Uses(acts, best.value) > 0
      invariant best.None? ==> nbest == 0
      invariant best.Some? ==> FirstOfBest(g, acts, best.value)
      invariant forall r: nat :: !IsStartRule(g, r) && Uses(acts[..i], r) > 0 ==> Uses(acts, r) <= nbest
    {
      assert acts == acts[..i] + acts[i..];
      assert acts[..i + 1] == acts[..i] + [acts[i]];
      assert acts[i..][0] == acts[i] && [acts[i]][1..] == [];
      forall r: nat ensures Uses(acts, r) == Uses(acts[..i], r) + Uses(acts[i..], r)
                         && Uses(acts[..i + 1], r) == Uses(acts[..i], r) + Uses([acts[i]], r) {
        UsesConcat(acts[..i], acts[i..], r);
        UsesConcat(acts[..i], [acts[i]], r);
      }
      if acts[i].kind.REDUCE? && !IsStartRule(g, acts[i].arg) && best != Some(acts[i].arg) {
        var n := CountFrom(acts, i);
        if n > nbest {
          FewerSoFar(g, acts, acts[i].arg, i, nbest);
          best, nbest := Some(acts[i].arg), n;
        }
      }
    }
    assert acts[..|acts|] == acts;
  }

  // ----- making it the default

  /** The first REDUCE by `r` moves to {default}, the others are dropped. */
  ghost predicate Defaulted(acts: seq<Action>, acts': seq<Action>, r: nat, nsymbol: nat) {
    && |acts'| == |acts|
    && exists k :: 0 <= k < |acts| && acts[k].kind.REDUCE? && acts[k].arg == r && DefaultedAt(acts, acts', r, nsymbol, k)
         && forall i :: 0 <= i < k ==> !(acts[i].kind.REDUCE? && acts[i].arg == r)
  }

  ghost predicate DefaultedAt(acts: seq<Action>, acts': seq<Action>, r: nat, nsymbol: nat, k: int)
    requires |acts'| == |acts|
  {
    forall i :: 0 <= i < |acts| ==>
      acts'[i] == if acts[i].kind.REDUCE? && acts[i].arg == r
                  then (if i == k then acts[i].(sp := nsymbol) else acts[i].(kind := NOT_USED))
                  else acts[i]
  }

  method MakeDefault(acts: seq<Action>, r: nat, nsymbol: nat) returns (acts': seq<Action>)
    requires Uses(acts, r) > 0
    ensures Defaulted(acts, acts', r, nsymbol)
  {
    UsedSomewhere(acts, r);
    var k := 0;
    while !(acts[k].kind.REDUCE? && acts[k].arg == r)
      invariant 0 <= k < |acts|
      invariant forall i :: 0 <= i < k ==> !(acts[i].kind.REDUCE? && acts[i].arg == r)
      decreases |acts| - k
    {
      k := k + 1;
    }
    acts' := acts[k := acts[k].(sp := nsymbol)];
    for i := k + 1 to |acts|
      invariant |acts'| == |acts| && acts'[k] == acts[k].(sp := nsymbol)
      invariant forall j :: 0 <= j < |acts| && j != k ==>
        acts'[j] == if j < i && acts[j].kind.REDUCE? && acts[j].arg == r then acts[j].(kind := NOT_USED) else acts[j]
    {
      if acts[i].kind.REDUCE? && acts[i].arg == r {
        acts' := acts'[i := acts[i].(kind := NOT_USED)];
      }
    }
    assert DefaultedAt(acts, acts', r, nsymbol, k);
  }

  function RowOf(g: Grammar, acts: seq<Action>): Row {
    Row(Entries(g, acts), Default(g, acts))
  }

  function RowLookup(row: Row, c: nat): Act {
    if c in row.acts then row.acts[c] else row.deflt
  }

  /** The list after the first pass: as before, except that tokens without an action, and those that
      reduced by `r`, now get the default reduce by `r`. */
  ghost predicate DefaultsTo(g: Grammar, acts: seq<Action>, acts': seq<Action>, r: nat) {
    forall c: nat :: RowLookup(RowOf(g, acts'), c) ==
      if RowLookup(RowOf(g, acts), c) == Error then Reduce(r) else RowLookup(RowOf(g, acts), c)
  }

  /** What `acts'` has besides the default are the other actions of `acts`. */
  ghost predicate AllButDefault(g: Grammar, acts: seq<Action>, acts': seq<Action>, r: nat) {
    && (forall x :: x in acts' && Emitted(x.kind) ==>
          (x in acts && !(x.kind.REDUCE? && x.arg == r)) || (x.sp == g.nsymbol && x.kind.REDUCE? && x.arg == r))
    && (forall x :: x in acts && !(x.kind.REDUCE? && x.arg == r) ==> x in acts')
    && (exists x :: x in acts' && x.sp == g.nsymbol && x.kind.REDUCE? && x.arg == r)
  }

  lemma DefaultedOnly(g: Grammar, acts: seq<Action>, acts': seq<Action>, r: nat, k: nat, x: Action)
    requires |acts'| == |acts| && k < |acts| && DefaultedAt(acts, acts', r, g.nsymbol, k)
    requires x in acts' && Emitted(x.kind)
    ensures (x in acts && !(x.kind.REDUCE? && x.arg == r)) || x == acts[k].(sp := g.nsymbol)
  {
    var i :| 0 <= i < |acts'| && acts'[i] == x;
    assert acts[i] in acts;
  }

  lemma DefaultedUnique(g: Grammar, acts: seq<Action>, acts': seq<Action>, r: nat, k: nat)
    requires Plain(g, acts) && |acts'| == |acts| && k < |acts| && DefaultedAt(acts, acts', r, g.nsymbol, k)
    ensures OneEmitted(acts')
  {
    hide DefaultedAt;
    forall x, y | x in acts' && y in acts' && x.sp == y.sp && Emitted(x.kind) && Emitted(y.kind) ensures x == y {
      DefaultedOnly(g, acts, acts', r, k, x);
      DefaultedOnly(g, acts, acts', r, k, y);
    }
  }

  lemma DefaultedMembers(g: Grammar, acts: seq<Action>, acts': seq<Action>, r: nat)
    requires Plain(g, acts) && Defaulted(acts, acts', r, g.nsymbol)
    ensures AllButDefault(g, acts, acts', r) && OneEmitted(acts')
  {
    hide Plain, OneEmitted;
    var k :| 0 <= k < |acts| && acts[k].kind.REDUCE? && acts[k].arg == r && DefaultedAt(acts, acts', r, g.nsymbol, k);
    DefaultedUnique(g, acts, acts', r, k);
    forall x | x in acts && !(x.kind.REDUCE? && x.arg == r) ensures x in acts' {
      var i :| 0 <= i < |acts| && acts[i] == x;
      assert acts'[i] == x;
    }
    assert acts'[k] in acts';
    forall x | x in acts' && Emitted(x.kind)
      ensures (x in acts && !(x.kind.REDUCE? && x.arg == r)) || (x.sp == g.nsymbol && x.kind.REDUCE? && x.arg == r)
    {
      DefaultedOnly(g, acts, acts', r, k, x);
    }
  }

  /** An entry on a nonterminal, or the default, is not one of those left behind. */
  ghost predicate GotosEmitted(g: Grammar, acts: seq<Action>) {
    forall x :: x in acts && x.sp >= g.nterminal ==> Emitted(x.kind)
  }

  lemma DefaultedGotos(g: Grammar, acts: seq<Action>, acts': seq<Action>, r: nat)
    requires Plain(g, acts) && GotosLive(g, acts) && Defaulted(acts, acts', r, g.nsymbol)
    ensures GotosEmitted(g, acts')
  {
    hide OneEmitted;
    var k :| 0 <= k < |acts| && acts[k].kind.REDUCE? && acts[k].arg == r && DefaultedAt(acts, acts', r, g.nsymbol, k);
    forall x | x in acts' && x.sp >= g.nterminal ensures Emitted(x.kind) {
      var i :| 0 <= i < |acts'| && acts'[i] == x;
      assert acts[i] in acts;
    }
  }

  lemma DefaultLookup(g: Grammar, acts: seq<Action>, acts': seq<Action>, r: nat)
    requires Plain(g, acts) && OneEmitted(acts') && AllButDefault(g, acts, acts', r)
    ensures DefaultsTo(g, acts, acts', r)
  {
    DefaultIs(g, acts);
    DefaultIs(g, acts');
    forall c: nat ensures RowLookup(RowOf(g, acts'), c) ==
      if RowLookup(RowOf(g, acts), c) == Error then Reduce(r) else RowLookup(RowOf(g, acts), c)
    {
      EntriesAre(g, acts, c);
      EntriesAre(g, acts', c);
      if x :| x in acts && x.sp == c < g.nsymbol && Emitted(x.kind) {
      }
    }
  }

  // ----- first pass: one state

  /** Nothing is left but the default. */
  predicate OnlyReduces(acts: seq<Action>, r: nat) {
    forall i :: 0 <= i < |acts| ==> !acts[i].kind.SHIFT? && (acts[i].kind.REDUCE? ==> acts[i].arg == r)
  }

  /** The default is the rule with the most reduces, the first of several, if there is any reduce but by a start rule. */
  ghost predicate BestFor(g: Grammar, acts: seq<Action>, best: Option<nat>) {
    match best
    case None => forall x :: x in acts && x.kind.REDUCE? ==> IsStartRule(g, x.arg)
    case Some(r) => !IsStartRule(g, r) && FirstOfBest(g, acts, r)
                    && forall k: nat :: !IsStartRule(g, k) ==> Uses(acts, k) <= Uses(acts, r)
  }

  lemma NoneForNone(g: Grammar, acts: seq<Action>)
    requires forall r: nat :: !IsStartRule(g, r) ==> Uses(acts, r) == 0
    ensures BestFor(g, acts, None)
  {
    forall x | x in acts && x.kind.REDUCE? ensures IsStartRule(g, x.arg) {
      UsedSomewhere(acts, x.arg);
    }
  }

  /** The outcome of the first pass for one state: its list, the default rule, and whether the state
      does nothing but reduce by it. */
  ghost predicate PassOne(g: Grammar, acts: seq<Action>, acts': seq<Action>, best: Option<nat>, auto: bool) {
    && OneEmitted(acts') && GotosEmitted(g, acts') && BestFor(g, acts, best)
    && match best
       case None => acts' == acts && !auto
       case Some(r) =>
         && (exists x :: x in acts && x.kind.REDUCE? && x.arg == r)
         && AllButDefault(g, acts, acts', r) && Sorted(ActionCmp, acts')
         && (auto <==> OnlyReduces(acts', r))
  }

  method DefaultState(g: Grammar, acts: seq<Action>) returns (acts': seq<Action>, best: Option<nat>, auto: bool)
    requires Plain(g, acts) && DistinctIds(acts) && GotosLive(g, acts)
    ensures PassOne(g, acts, acts', best, auto) && DistinctIds(acts')
  {
    best := BestRule(g, acts);
    acts', auto := acts, false;
    if best.Some? {
      UsedSomewhere(acts, best.value);
      acts' := DefaultAndSort(g, acts, best.value);
      auto := OnlyReduces(acts', best.value);
    } else {
      NoneForNone(g, acts);
    }
  }

  method DefaultAndSort(g: Grammar, acts: seq<Action>, r: nat) returns (acts': seq<Action>)
    requires Plain(g, acts) && DistinctIds(acts) && Uses(acts, r) > 0 && GotosLive(g, acts)
    ensures OneEmitted(acts') && AllButDefault(g, acts, acts', r) && DistinctIds(acts') && GotosEmitted(g, acts')
    ensures Sorted(ActionCmp, acts')
  {
    hide Plain, GotosLive;
    var marked := MakeDefault(acts, r, g.nsymbol);
    assert DistinctIds(marked);
    hide DistinctIds, Defaulted;
    DefaultedMembers(g, acts, marked, r);
    DefaultedGotos(g, acts, marked, r);
    ActionOrder();
    acts' := Msort(marked, ActionCmp);
    IdsPermuted(marked, acts');
    assert forall x :: x in acts' <==> x in marked by {
      SamePermuted(acts', marked);
      assert forall x :: x in acts' <==> x in Elems(marked);
    }
    PermutedKeeps(g, acts, marked, acts', r);
  }

  lemma PermutedKeeps(g: Grammar, acts: seq<Action>, marked: seq<Action>, acts': seq<Action>, r: nat)
    requires OneEmitted(marked) && AllButDefault(g, acts, marked, r) && forall x :: x in acts' <==> x in marked
    ensures OneEmitted(acts') && AllButDefault(g, acts, acts', r)
  {
  }

  /** A state is left with its default alone exactly if it is one that only reduces; an accept makes no difference. */
  lemma AutoIff(g: Grammar, acts: seq<Action>, acts': seq<Action>, best: Option<nat>, auto: bool)
    requires Plain(g, acts) && PassOne(g, acts, acts', best, auto)
    ensures auto <==> best.Some? && forall x :: x in acts' && Emitted(x.kind) && x.sp != g.nsymbol ==> x.kind.ACCEPT?
  {
  }

  /** The row of a state after the first pass. */
  lemma PassOneRow(g: Grammar, acts: seq<Action>, acts': seq<Action>, best: Option<nat>, auto: bool)
    requires Plain(g, acts) && PassOne(g, acts, acts', best, auto)
    ensures best.Some? ==> DefaultsTo(g, acts, acts', best.value)
    ensures auto ==> forall c: nat :: c < g.nterminal ==> RowLookup(RowOf(g, acts'), c) == Reduce(best.value)
  {
    if best.Some? {
      DefaultLookup(g, acts, acts', best.value);
      if auto {
        DefaultIs(g, acts');
        forall c: nat | c < g.nterminal ensures RowLookup(RowOf(g, acts'), c) == Reduce(best.value) {
          EntriesAre(g, acts', c);
        }
      }
    }
  }

  // ----- second pass

  function ToShiftReduce(autos: seq<Option<nat>>, x: Action): Action {
    if x.kind.SHIFT? && x.arg < |autos| && autos[x.arg].Some? then x.(kind := SHIFTREDUCE, arg := autos[x.arg].value) else x
  }

  method ShiftReduces(autos: seq<Option<nat>>, acts: seq<Action>) returns (acts': seq<Action>)
    ensures |acts'| == |acts| && forall i :: 0 <= i < |acts| ==> acts'[i] == ToShiftReduce(autos, acts[i])
  {
    acts' := acts;
    for i := 0 to |acts|
      invariant |acts'| == |acts|
      invariant forall j :: 0 <= j < |acts| ==> acts'[j] == if j < i then ToShiftReduce(autos, acts[j]) else acts[j]
    {
      if acts[i].kind.SHIFT? && acts[i].arg < |autos| && autos[acts[i].arg].Some? {
        acts' := acts'[i := acts[i].(kind := SHIFTREDUCE, arg := autos[acts[i].arg].value)];
      }
    }
  }

  /** What a table entry becomes: a shift of a token to an auto-reduce state is a SHIFTREDUCE, a goto
      to one is the reduce itself. */
  function Converted(g: Grammar, autos: seq<Option<nat>>, c: nat, act: Act): Act {
    if act.Shift? && act.state < |autos| && autos[act.state].Some? then
      if c >= g.nterminal then Reduce(autos[act.state].value) else ShiftReduce(autos[act.state].value)
    else act
  }

  ghost predicate PassTwo(autos: seq<Option<nat>>, acts: seq<Action>, acts': seq<Action>) {
    |acts'| == |acts| && forall i :: 0 <= i < |acts| ==> acts'[i] == ToShiftReduce(autos, acts[i])
  }

  lemma {:induction false} ConvertedRow(g: Grammar, autos: seq<Option<nat>>, acts: seq<Action>, acts': seq<Action>, c: nat)
    requires PassTwo(autos, acts, acts')
    requires forall x :: x in acts ==> !x.kind.SHIFTREDUCE? && (x.sp == g.nsymbol ==> !x.kind.SHIFT?)
    ensures c in Entries(g, acts') <==> c in Entries(g, acts)
    ensures c in Entries(g, acts) ==> Entries(g, acts')[c] == Converted(g, autos, c, Entries(g, acts)[c])
    ensures Default(g, acts') == Default(g, acts) && !Default(g, acts).Shift?
    decreases |acts|
  {
    if acts != [] {
      assert acts == acts[..|acts| - 1] + [acts[|acts| - 1]];
      ConvertedRow(g, autos, acts[..|acts| - 1], acts'[..|acts| - 1], c);
    }
  }

  lemma ConvertedUnique(g: Grammar, acts0: seq<Action>, best: Option<nat>, autos: seq<Option<nat>>, acts: seq<Action>, acts': seq<Action>)
    requires |acts'| == |acts| && forall i :: 0 <= i < |acts| ==> acts'[i] == ToShiftReduce(autos, acts[i])
    requires (exists auto :: PassOne(g, acts0, acts, best, auto)) && DistinctIds(acts)
    ensures PassTwo(autos, acts, acts') && OneEmitted(acts') && DistinctIds(acts')
  {
    forall x, y | x in acts' && y in acts' && x.sp == y.sp && Emitted(x.kind) && Emitted(y.kind) ensures x == y {
      var i :| 0 <= i < |acts'| && acts'[i] == x;
      var j :| 0 <= j < |acts'| && acts'[j] == y;
      assert acts[i] in acts && acts[j] in acts;
    }
  }

  // ----- the tables

  /** Table `tb1` is `tb` with defaults: a token (or any symbol) without an action gets the default. */
  ghost predicate WithDefaults(g: Grammar, n: nat, tb: Table, tb1: Table, best: seq<Option<nat>>) {
    && |best| == n && |tb1| == n
    && forall q: nat, c: nat :: q < n ==>
         Lookup(tb1, q, c) == if Lookup(tb, q, c) == Error && best[q].Some? then Reduce(best[q].value) else Lookup(tb, q, c)
  }

  /** Table `tb2` is `tb1` with its shifts to auto-reduce states converted. */
  ghost predicate WithShiftReduce(g: Grammar, n: nat, tb1: Table, tb2: Table, autos: seq<Option<nat>>) {
    && |autos| == n && |tb2| == n
    && (forall q: nat, c: nat :: q < n ==> Lookup(tb2, q, c) == Converted(g, autos, c, Lookup(tb1, q, c)))
    && (forall q: nat, c: nat :: q < n && autos[q].Some? && c < g.nterminal ==> Lookup(tb1, q, c) == Reduce(autos[q].value))
  }

  /** The default rule of a state is one it reduced by, and not a rule of the start symbol. */
  ghost predicate DefaultsUsed(g: Grammar, ap: seq<seq<Action>>, best: seq<Option<nat>>) {
    && |best| == |ap|
    && forall q: nat :: q < |ap| && best[q].Some? ==>
         !IsStartRule(g, best[q].value) && exists x :: x in ap[q] && x.kind.REDUCE? && x.arg == best[q].value
  }

  /** States that only reduce had no shift. */
  ghost predicate AutosReduce(ap: seq<seq<Action>>, best: seq<Option<nat>>, autos: seq<Option<nat>>) {
    && |best| == |autos| == |ap|
    && forall q: nat :: q < |ap| && autos[q].Some? ==>
         autos[q] == best[q] && forall x :: x in ap[q] ==> !x.kind.SHIFT?
  }

  /** No goto of a state is lost. */
  ghost predicate KeepsGotos(g: Grammar, ap: seq<seq<Action>>, ap2: seq<seq<Action>>) {
    |ap2| == |ap| && forall q: nat, c: nat :: q < |ap| && g.nterminal <= c && c in Entries(g, ap[q]) ==> c in Entries(g, ap2[q])
  }

  lemma LookupRow(g: Grammar, ap: seq<seq<Action>>, q: nat, c: nat)
    requires q < |ap|
    ensures Lookup(TableOf(g, ap), q, c) == RowLookup(RowOf(g, ap[q]), c)
  {
  }

  /** CompressTables, without the elimination of unit rules. */
  method CompressTables(g: Grammar, ap: seq<seq<Action>>)
    returns (ap1: seq<seq<Action>>, ap2: seq<seq<Action>>, best: seq<Option<nat>>, autos: seq<Option<nat>>)
    requires forall q: nat :: q < |ap| ==> Plain(g, ap[q]) && DistinctIds(ap[q]) && GotosLive(g, ap[q])
    ensures |ap1| == |ap2| == |best| == |autos| == |ap|
    ensures forall q: nat :: q < |ap| ==> DistinctIds(ap2[q]) && OneEmitted(ap2[q])
    ensures WithDefaults(g, |ap|, TableOf(g, ap), TableOf(g, ap1), best)
    ensures WithShiftReduce(g, |ap|, TableOf(g, ap1), TableOf(g, ap2), autos)
    ensures DefaultsUsed(g, ap, best) && AutosReduce(ap, best, autos) && KeepsGotos(g, ap, ap2)
    ensures forall q: nat :: q < |ap| ==> PassOne(g, ap[q], ap1[q], best[q], autos[q].Some?) && PassTwo(autos, ap1[q], ap2[q])
  {
    hide PassOne, PassTwo, Plain, DistinctIds, OneEmitted, GotosLive;
    ap1, best, autos := [], [], [];
    for q := 0 to |ap|
      invariant |ap1| == |best| == |autos| == q
      invariant forall k: nat :: k < q ==> PassOne(g, ap[k], ap1[k], best[k], autos[k].Some?)
      invariant forall k: nat :: k < q && autos[k].Some? ==> autos[k] == best[k]
      invariant forall k: nat :: k < q ==> DistinctIds(ap1[k])
    {
      var acts, b, auto := DefaultState(g, ap[q]);
      ap1, best, autos := ap1 + [acts], best + [b], autos + [if auto then b else None];
    }
    ap2 := [];
    for q := 0 to |ap|
      invariant |ap2| == q && forall k: nat :: k < q ==> PassTwo(autos, ap1[k], ap2[k]) && DistinctIds(ap2[k]) && OneEmitted(ap2[k])
    {
      var acts := ShiftReduces(autos, ap1[q]);
      ConvertedUnique(g, ap[q], best[q], autos, ap1[q], acts);
      ap2 := ap2 + [acts];
    }
    TablesAre(g, ap, ap1, ap2, best, autos);
  }

  lemma TablesAre(g: Grammar, ap: seq<seq<Action>>, ap1: seq<seq<Action>>, ap2: seq<seq<Action>>,
                  best: seq<Option<nat>>, autos: seq<Option<nat>>)
    requires |ap1| == |ap2| == |best| == |autos| == |ap|
    requires forall q: nat :: q < |ap| ==> Plain(g, ap[q]) && PassOne(g, ap[q], ap1[q], best[q], autos[q].Some?)
    requires forall q: nat :: q < |ap| && autos[q].Some? ==> autos[q] == best[q]
    requires forall q: nat :: q < |ap| ==> PassTwo(autos, ap1[q], ap2[q])
    ensures WithDefaults(g, |ap|, TableOf(g, ap), TableOf(g, ap1), best)
    ensures WithShiftReduce(g, |ap|, TableOf(g, ap1), TableOf(g, ap2), autos)
    ensures DefaultsUsed(g, ap, best) && AutosReduce(ap, best, autos) && KeepsGotos(g, ap, ap2)
  {
    forall q: nat, c: nat | q < |ap| && g.nterminal <= c && c in Entries(g, ap[q]) ensures c in Entries(g, ap2[q]) {
      NoEarlyShiftReduce(g, ap[q], ap1[q], best[q], autos[q].Some?);
      ConvertedRow(g, autos, ap1[q], ap2[q], c);
      DefaultKeepsGoto(g, ap[q], ap1[q], best[q], autos[q].Some?, c);
    }
    forall q: nat, c: nat | q < |ap|
      ensures Lookup(TableOf(g, ap1), q, c) ==
        if Lookup(TableOf(g, ap), q, c) == Error && best[q].Some? then Reduce(best[q].value) else Lookup(TableOf(g, ap), q, c)
    {
      LookupRow(g, ap, q, c);
      LookupRow(g, ap1, q, c);
      PassOneRow(g, ap[q], ap1[q], best[q], autos[q].Some?);
    }
    forall q: nat, c: nat | q < |ap|
      ensures Lookup(TableOf(g, ap2), q, c) == Converted(g, autos, c, Lookup(TableOf(g, ap1), q, c))
      ensures autos[q].Some? && c < g.nterminal ==> Lookup(TableOf(g, ap1), q, c) == Reduce(autos[q].value)
    {
      LookupRow(g, ap1, q, c);
      LookupRow(g, ap2, q, c);
      PassOneRow(g, ap[q], ap1[q], best[q], autos[q].Some?);
      NoEarlyShiftReduce(g, ap[q], ap1[q], best[q], autos[q].Some?);
      ConvertedRow(g, autos, ap1[q], ap2[q], c);
    }
  }

  lemma DefaultKeepsGoto(g: Grammar, acts: seq<Action>, acts': seq<Action>, best: Option<nat>, auto: bool, c: nat)
    requires Plain(g, acts) && PassOne(g, acts, acts', best, auto) && g.nterminal <= c && c in Entries(g, acts)
    ensures c in Entries(g, acts')
  {
    EntriesAre(g, acts, c);
    EntriesAre(g, acts', c);
    var x :| x in acts && x.sp == c < g.nsymbol && Emitted(x.kind);
    assert x in acts';
  }

  lemma NoEarlyShiftReduce(g: Grammar, acts: seq<Action>, acts': seq<Action>, best: Option<nat>, auto: bool)
    requires Plain(g, acts) && PassOne(g, acts, acts', best, auto)
    ensures forall x :: x in acts' ==> !x.kind.SHIFTREDUCE? && (x.sp == g.nsymbol ==> !x.kind.SHIFT?)
  {
    forall x | x in acts' ensures !x.kind.SHIFTREDUCE? && (x.sp == g.nsymbol ==> !x.kind.SHIFT?) {
      if best.Some? && Emitted(x.kind) {
        assert x in acts || x.kind.REDUCE?;
      }
    }
  }
}
