/** resolve_conflict, and its pairwise use. */
module Conflicts {
  // The pass of FindActions (tools/lemon/lemon.c) that says which of several actions on the same lookahead survives.

  import opened MergeSort

  /** enum e_action */
  datatype Kind =
    | SHIFT | ACCEPT | REDUCE | ERROR | SSCONFLICT | SRCONFLICT | RRCONFLICT
    | SH_RESOLVED | RD_RESOLVED | NOT_USED | SHIFTREDUCE

  function Rank(k: Kind): nat {
    match k
    case SHIFT => 0
    case ACCEPT => 1
    case REDUCE => 2
    case ERROR => 3
    case SSCONFLICT => 4
    case SRCONFLICT => 5
    case RRCONFLICT => 6
    case SH_RESOLVED => 7
    case RD_RESOLVED => 8
    case NOT_USED => 9
    case SHIFTREDUCE => 10
  }

  /** `arg` is the next state of a shift or the rule of a reduce; `id` stands for the address of the
      structure, the last resort of the sort order. */
  datatype Action = Action(sp: nat, kind: Kind, arg: nat, id: nat)

  /** actioncmp */
  function ActionCmp(a: Action, b: Action): int {
    if a.sp != b.sp then a.sp - b.sp
    else if Rank(a.kind) != Rank(b.kind) then Rank(a.kind) - Rank(b.kind)
    else if (a.kind.REDUCE? || a.kind.SHIFTREDUCE?) && a.arg != b.arg then a.arg - b.arg
    else b.id - a.id
  }

  lemma ActionOrder()
    ensures TotalPreorder(ActionCmp)
  {
    assert forall x, y, z :: Transitive(ActionCmp, x, y, z);
    assert forall x, y :: Coherent(ActionCmp, x, y);
  }

  // ----- precedence

  datatype Assoc = LEFT | RIGHT | NONE | UNK

  /** `level` of a symbol, -1 if it has none; the precedence symbol of a rule, -1 if it has none. */
  datatype Precedence = Precedence(level: seq<int>, assoc: seq<Assoc>, precsym: seq<int>)

  function Level(p: Precedence, sp: int): int {
    if 0 <= sp < |p.level| then p.level[sp] else -1
  }

  function AssocOf(p: Precedence, sp: int): Assoc {
    if 0 <= sp < |p.assoc| then p.assoc[sp] else UNK
  }

  /** The level of a rule's precedence symbol. */
  function RuleLevel(p: Precedence, r: nat): int {
    if r < |p.precsym| then Level(p, p.precsym[r]) else -1
  }

  /** resolve_conflict: the kinds of the two actions afterwards, and whether this counts as a conflict. */
  function ResolvePair(p: Precedence, x: Action, y: Action): (Kind, Kind, nat) {
    if x.kind.SHIFT? && y.kind.SHIFT? then (x.kind, SSCONFLICT, 1)
    else if x.kind.SHIFT? && y.kind.REDUCE? then
      var px, py := Level(p, x.sp), RuleLevel(p, y.arg);
      if px < 0 || py < 0 then (x.kind, SRCONFLICT, 1)
      else if px > py then (x.kind, RD_RESOLVED, 0)
      else if px < py then (SH_RESOLVED, y.kind, 0)
      else if AssocOf(p, x.sp).RIGHT? then (x.kind, RD_RESOLVED, 0)
      else if AssocOf(p, x.sp).LEFT? then (SH_RESOLVED, y.kind, 0)
      else (ERROR, y.kind, 0)
    else if x.kind.REDUCE? && y.kind.REDUCE? then
      var px, py := RuleLevel(p, x.arg), RuleLevel(p, y.arg);
      if px < 0 || py < 0 || px == py then (x.kind, RRCONFLICT, 1)
      else if px > py then (x.kind, RD_RESOLVED, 0)
      else (RD_RESOLVED, y.kind, 0)
    else (x.kind, y.kind, 0)
  }

  /** The action still takes part. */
  predicate Live(k: Kind) {
    k.SHIFT? || k.ACCEPT? || k.REDUCE?
  }

  predicate IsConflict(k: Kind) {
    k.SSCONFLICT? || k.SRCONFLICT? || k.RRCONFLICT?
  }

  /** The marks that the assertion in resolve_conflict lists. */
  predicate Settled(k: Kind) {
    IsConflict(k) || k.SH_RESOLVED? || k.RD_RESOLVED?
  }

  /** No shift meets a rule of its own precedence on a token declared %nonassoc. */
  predicate Untied(p: Precedence, acts: seq<Action>) {
    forall i, j :: 0 <= i < |acts| && 0 <= j < |acts| && acts[i].kind.SHIFT? && acts[j].kind.REDUCE? && acts[i].sp == acts[j].sp ==>
      Level(p, acts[i].sp) < 0 || Level(p, acts[i].sp) != RuleLevel(p, acts[j].arg) || AssocOf(p, acts[i].sp).LEFT? || AssocOf(p, acts[i].sp).RIGHT?
  }

  /** The list as Action_sort leaves it: in order, fresh kinds only, and ACCEPT on a symbol of its own. */
  ghost predicate FreshSorted(acts: seq<Action>) {
    && Sorted(ActionCmp, acts)
    && (forall i :: 0 <= i < |acts| ==> Live(acts[i].kind))
    && (forall i, j :: 0 <= i < |acts| && 0 <= j < |acts| && i != j && acts[i].sp == acts[j].sp ==> !acts[i].kind.ACCEPT?)
  }

  function ConflictCount(acts: seq<Action>): nat {
    if acts == [] then 0
    else ConflictCount(acts[..|acts| - 1]) + if IsConflict(acts[|acts| - 1].kind) then 1 else 0
  }

  lemma {:induction false} ConflictsUpdate(acts: seq<Action>, i: nat, a: Action)
    requires i < |acts| && !IsConflict(acts[i].kind)
    ensures ConflictCount(acts[i := a]) == ConflictCount(acts) + if IsConflict(a.kind) then 1 else 0
    decreases |acts|
  {
    var n := |acts| - 1;
    if i < n {
      assert acts[i := a][..n] == acts[..n][i := a];
      ConflictsUpdate(acts[..n], i, a);
    } else {
      assert acts[i := a][..n] == acts[..n];
    }
  }

  lemma {:induction false} NoConflictsYet(acts: seq<Action>)
    requires forall i :: 0 <= i < |acts| ==> Live(acts[i].kind)
    ensures ConflictCount(acts) == 0
    decreases |acts|
  {
    if acts != [] {
      NoConflictsYet(acts[..|acts| - 1]);
    }
  }

  /** `now` is `orig` with some actions marked. */
  ghost predicate Marked(orig: seq<Action>, now: seq<Action>) {
    && |now| == |orig|
    && forall i :: 0 <= i < |orig| ==>
         now[i] == orig[i].(kind := now[i].kind) && (now[i].kind == orig[i].kind || Settled(now[i].kind))
  }

  ghost predicate SomeLive(acts: seq<Action>, i: nat)
    requires i < |acts|
  {
    exists j :: 0 <= j < |acts| && acts[j].sp == acts[i].sp && Live(acts[j].kind)
  }

  /** Pairs before (i, j) in the order of the two loops are not both live. */
  ghost predicate PairsDone(acts: seq<Action>, i: nat, j: nat) {
    forall a, b :: 0 <= a < b < |acts| && acts[a].sp == acts[b].sp && (a < i || (a == i && b < j)) ==>
      !(Live(acts[a].kind) && Live(acts[b].kind))
  }

  ghost predicate PassInv(orig: seq<Action>, now: seq<Action>, count: nat, i: nat, j: nat) {
    && Marked(orig, now) && count == ConflictCount(now) && PairsDone(now, i, j)
    && forall a :: 0 <= a < |now| ==> SomeLive(now, a)
  }

  /** No other action has the same lookahead. */
  ghost predicate Alone(acts: seq<Action>, i: nat)
    requires i < |acts|
  {
    forall j :: 0 <= j < |acts| && acts[j].sp == acts[i].sp ==> j == i
  }

  /** No symbol has a precedence. */
  predicate NoLevels(p: Precedence) {
    forall i :: 0 <= i < |p.level| ==> p.level[i] < 0
  }

  ghost predicate HasEarlier(acts: seq<Action>, b: nat)
    requires b < |acts|
  {
    exists a :: 0 <= a < b && acts[a].sp == acts[b].sp
  }

  /** Without precedences: only the first action on a lookahead is live, as far as the pairs before (i, j) go. */
  ghost predicate FirstsWin(acts: seq<Action>, i: nat, j: nat) {
    && (forall a, b :: 0 <= a < b < |acts| && acts[a].sp == acts[b].sp && (a < i || (a == i && b < j)) ==> !Live(acts[b].kind))
    && forall b :: 0 <= b < |acts| && !Live(acts[b].kind) ==> HasEarlier(acts, b)
  }

  /** The list with the pair (i, j) resolved. */
  function WithPair(p: Precedence, now: seq<Action>, i: nat, j: nat): (seq<Action>, nat)
    requires i < |now| && j < |now|
  {
    var (kx, ky, n) := ResolvePair(p, now[i], now[j]);
    (now[i := now[i].(kind := kx)][j := now[j].(kind := ky)], n)
  }

  lemma LaterLoses(p: Precedence, orig: seq<Action>, now: seq<Action>, i: nat, j: nat)
    requires FreshSorted(orig) && Marked(orig, now) && i < j < |orig| && orig[i].sp == orig[j].sp
    requires NoLevels(p) && FirstsWin(now, i, j)
    ensures var (kx, ky, n) := ResolvePair(p, now[i], now[j]); kx == now[i].kind && !Live(ky)
  {
    assert ActionCmp(orig[i], orig[j]) <= 0;
    if !Live(now[i].kind) {
      assert HasEarlier(now, i);
      var a :| 0 <= a < i && now[a].sp == now[i].sp;
    }
  }

  lemma FirstWins(p: Precedence, orig: seq<Action>, now: seq<Action>, i: nat, j: nat)
    requires FreshSorted(orig) && Marked(orig, now) && i < j < |orig| && orig[i].sp == orig[j].sp
    requires NoLevels(p) && FirstsWin(now, i, j)
    ensures FirstsWin(WithPair(p, now, i, j).0, i, j + 1)
  {
    LaterLoses(p, orig, now, i, j);
    assert now[i].sp == now[j].sp;
    hide ResolvePair, FreshSorted, NoLevels, FirstsWin, Marked;
    var ky := ResolvePair(p, now[i], now[j]).1;
    assert now[i := now[i]] == now;
    OneMoreLost(now, i, j, ky);
  }

  lemma OneMoreLost(now: seq<Action>, i: nat, j: nat, ky: Kind)
    requires i < j < |now| && now[i].sp == now[j].sp && FirstsWin(now, i, j) && !Live(ky)
    ensures FirstsWin(now[j := now[j].(kind := ky)], i, j + 1)
  {
    var next := now[j := now[j].(kind := ky)];
    assert forall b :: 0 <= b < |now| ==> next[b].sp == now[b].sp;
    forall b | 0 <= b < |next| && !Live(next[b].kind) ensures HasEarlier(next, b) {
      if b == j {
        assert next[i].sp == next[j].sp;
      } else {
        assert HasEarlier(now, b);
        var a :| 0 <= a < b && now[a].sp == now[b].sp;
        assert next[a].sp == next[b].sp;
      }
    }
  }

  /** One pair: if both were live, exactly one still is; the assertion at the end of resolve_conflict holds. */
  lemma PairResolved(p: Precedence, orig: seq<Action>, now: seq<Action>, i: nat, j: nat)
    requires FreshSorted(orig) && Untied(p, orig) && Marked(orig, now) && i < j < |orig| && orig[i].sp == orig[j].sp
    ensures var (kx, ky, n) := ResolvePair(p, now[i], now[j]);
      if Live(now[i].kind) && Live(now[j].kind) then
        && ((kx == now[i].kind && Settled(ky)) || (ky == now[j].kind && Settled(kx)))
        && n == (if IsConflict(kx) || IsConflict(ky) then 1 else 0)
      else
        && (kx, ky, n) == (now[i].kind, now[j].kind, 0)
        && (Settled(now[i].kind) || Settled(now[j].kind))
  {
    assert ActionCmp(orig[i], orig[j]) <= 0;
  }

  /** What `Untied` rules out: a shift and a reduce of its precedence on a %nonassoc token. The reduce stays, the shift
      becomes ERROR, and the assertion at the end of resolve_conflict fails at every action after them on the token. */
  lemma TiedPair(p: Precedence, orig: seq<Action>, i: nat, j: nat)
    requires FreshSorted(orig) && i < j < |orig| && orig[i].sp == orig[j].sp && orig[i].kind.SHIFT? && orig[j].kind.REDUCE?
    requires 0 <= Level(p, orig[i].sp) == RuleLevel(p, orig[j].arg) && AssocOf(p, orig[i].sp).NONE?
    ensures WithPair(p, orig, i, j) == (orig[i := orig[i].(kind := ERROR)], 0)
    ensures forall k :: j < k < |orig| && orig[k].sp == orig[i].sp ==>
      && !Settled(WithPair(p, orig, i, j).0[i].kind) && !Settled(orig[k].kind)
      && WithPair(p, WithPair(p, orig, i, j).0, i, k) == WithPair(p, orig, i, j)
  {
    var next := WithPair(p, orig, i, j).0;
    assert next == orig[i := orig[i].(kind := ERROR)];
    forall k | j < k < |orig| && orig[k].sp == orig[i].sp ensures !Settled(orig[k].kind) && WithPair(p, next, i, k) == (next, 0) {
      assert next[k] == orig[k] && Live(orig[k].kind);
      assert WithPair(p, next, i, k).0 == next;
    }
  }

  lemma SomeLiveKept(now: seq<Action>, next: seq<Action>, i: nat, j: nat)
    requires i < j < |now| == |next| && now[i].sp == now[j].sp
    requires forall k :: 0 <= k < |now| ==> next[k].sp == now[k].sp
    requires forall k :: 0 <= k < |now| && k != i && k != j ==> next[k] == now[k]
    requires forall k :: 0 <= k < |now| ==> SomeLive(now, k)
    requires Live(now[i].kind) || Live(now[j].kind) ==> Live(next[i].kind) || Live(next[j].kind)
    ensures forall k :: 0 <= k < |now| ==> SomeLive(next, k)
  {
    forall k | 0 <= k < |now| ensures SomeLive(next, k) {
      assert SomeLive(now, k);
      var l :| 0 <= l < |now| && now[l].sp == now[k].sp && Live(now[l].kind);
      if l == i || l == j {
        assert Live(next[i].kind) || Live(next[j].kind);
        assert next[i].sp == next[k].sp && next[j].sp == next[k].sp;
      } else {
        assert next[l] == now[l];
      }
    }
  }

  lemma PairStep(p: Precedence, orig: seq<Action>, now: seq<Action>, count: nat, i: nat, j: nat)
    requires FreshSorted(orig) && Untied(p, orig) && i < j < |orig| && orig[i].sp == orig[j].sp
    requires PassInv(orig, now, count, i, j)
    ensures PassInv(orig, WithPair(p, now, i, j).0, count + WithPair(p, now, i, j).1, i, j + 1)
  {
    hide ResolvePair, FreshSorted, Untied, PairsDone;
    var (kx, ky, n) := ResolvePair(p, now[i], now[j]);
    PairResolved(p, orig, now, i, j);
    var mid := now[i := now[i].(kind := kx)];
    var next := mid[j := now[j].(kind := ky)];
    if Live(now[i].kind) && Live(now[j].kind) {
      ConflictsUpdate(now, i, now[i].(kind := kx));
      ConflictsUpdate(mid, j, now[j].(kind := ky));
      SomeLiveKept(now, next, i, j);
    } else {
      assert next == now;
    }
    PairsDoneStep(now, next, i, j);
  }

  lemma PairsDoneStep(now: seq<Action>, next: seq<Action>, i: nat, j: nat)
    requires i < j < |now| == |next| && PairsDone(now, i, j) && !(Live(next[i].kind) && Live(next[j].kind))
    requires forall k :: 0 <= k < |now| ==> next[k].sp == now[k].sp && (Live(next[k].kind) ==> Live(now[k].kind))
    ensures PairsDone(next, i, j + 1)
  {
  }

  // ----- which action wins

  /** Rule `r` takes precedence over a shift of the token. */
  predicate Beats(p: Precedence, sp: nat, r: nat) {
    && Level(p, sp) >= 0 && RuleLevel(p, r) >= 0
    && (RuleLevel(p, r) > Level(p, sp) || (RuleLevel(p, r) == Level(p, sp) && AssocOf(p, sp).LEFT?))
  }

  /** Of two actions on a lookahead the later one wins. */
  predicate Dethrones(p: Precedence, x: Action, y: Action) {
    if x.kind.SHIFT? then y.kind.REDUCE? && Beats(p, x.sp, y.arg)
    else x.kind.REDUCE? && y.kind.REDUCE? && 0 <= RuleLevel(p, x.arg) < RuleLevel(p, y.arg)
  }

  /** What the later one becomes if it does not. */
  function LossMark(p: Precedence, x: Action, y: Action): Kind {
    if y.kind.SHIFT? then SSCONFLICT
    else if x.kind.SHIFT? then if Level(p, x.sp) < 0 || RuleLevel(p, y.arg) < 0 then SRCONFLICT else RD_RESOLVED
    else if RuleLevel(p, x.arg) < 0 || RuleLevel(p, y.arg) < 0 || RuleLevel(p, x.arg) == RuleLevel(p, y.arg) then RRCONFLICT
    else RD_RESOLVED
  }

  function LostMark(x: Action): Kind {
    if x.kind.SHIFT? then SH_RESOLVED else RD_RESOLVED
  }

  lemma PairIs(p: Precedence, orig: seq<Action>, i: nat, j: nat)
    requires FreshSorted(orig) && Untied(p, orig) && i < j < |orig| && orig[i].sp == orig[j].sp
    ensures var (x, y) := (orig[i], orig[j]);
            var (kx, ky, n) := ResolvePair(p, x, y);
            if Dethrones(p, x, y) then kx == LostMark(x) && ky == y.kind && n == 0
            else kx == x.kind && ky == LossMark(p, x, y) && n == if IsConflict(ky) then 1 else 0
  {
    assert ActionCmp(orig[i], orig[j]) <= 0;
  }

  /** The action that holds the lookahead of the one before `e`, once that has been looked at. */
  ghost function Champion(p: Precedence, orig: seq<Action>, e: nat): (m: nat)
    requires 0 < e <= |orig|
    ensures m < e && orig[m].sp == orig[e - 1].sp
  {
    if e == 1 || orig[e - 2].sp != orig[e - 1].sp then e - 1
    else
      var m := Champion(p, orig, e - 1);
      if Dethrones(p, orig[m], orig[e - 1]) then e - 1 else m
  }

  /** An action before `e` has won over `k`, which held the lookahead. */
  ghost predicate Dethroned(p: Precedence, orig: seq<Action>, k: nat, e: nat) {
    exists l: nat :: k < l < e <= |orig| && orig[l].sp == orig[k].sp && Champion(p, orig, l + 1) != k
  }

  /** What has become of action `k` when all before `e` have been looked at. */
  ghost function KindBy(p: Precedence, orig: seq<Action>, k: nat, e: nat): Kind
    requires k < e <= |orig|
  {
    if Champion(p, orig, k + 1) != k then LossMark(p, orig[Champion(p, orig, k)], orig[k])
    else if Dethroned(p, orig, k, e) then LostMark(orig[k])
    else orig[k].kind
  }

  ghost predicate GroupEnds(orig: seq<Action>, e: nat) {
    0 < e <= |orig| && (e == |orig| || orig[e].sp != orig[e - 1].sp)
  }

  /** The actions before `e` have been looked at: at the pair (i, j), either `i` holds the lookahead, or a later one does
      and `i` is out of it, or the lookahead is done with. */
  ghost predicate TourneyAt(p: Precedence, orig: seq<Action>, now: seq<Action>, i: nat, j: nat, e: nat) {
    && i < e <= |orig| == |now| && orig[i].sp == orig[e - 1].sp
    && (forall k: nat :: k < e ==> now[k].kind == KindBy(p, orig, k, e))
    && (forall k: nat :: e <= k < |orig| ==> now[k].kind == orig[k].kind)
    && ((Champion(p, orig, e) == i && e == j) || (Champion(p, orig, e) == e - 1 && i < e - 1) || GroupEnds(orig, e))
  }

  ghost predicate Tourney(p: Precedence, orig: seq<Action>, now: seq<Action>, i: nat, j: nat) {
    if i < |orig| then exists e: nat :: TourneyAt(p, orig, now, i, j, e)
    else |now| == |orig| && forall k: nat :: k < |orig| ==> now[k].kind == KindBy(p, orig, k, |orig|)
  }

  /** What has been lost stays so. */
  lemma {:induction false} LaterChampion(p: Precedence, orig: seq<Action>, k: nat, l: nat, e: nat)
    requires k < l < e <= |orig| && orig[k].sp == orig[l].sp == orig[e - 1].sp && Sorted(ActionCmp, orig) && Champion(p, orig, l + 1) != k
    ensures Champion(p, orig, e) != k
    decreases e
  {
    hide Champion, Sorted;
    if l + 1 < e {
      Between(orig, l, e - 2, e - 1);
      LaterChampion(p, orig, k, l, e - 1);
      OneLater(p, orig, e);
    }
  }

  lemma OneLater(p: Precedence, orig: seq<Action>, e: nat)
    requires 1 < e <= |orig| && orig[e - 2].sp == orig[e - 1].sp
    ensures Champion(p, orig, e) == e - 1 || Champion(p, orig, e) == Champion(p, orig, e - 1)
  {
  }

  lemma FreshIsSorted(orig: seq<Action>)
    requires FreshSorted(orig)
    ensures Sorted(ActionCmp, orig)
  {
  }

  lemma ListOrder(orig: seq<Action>, a: nat, b: nat)
    requires Sorted(ActionCmp, orig) && a <= b < |orig|
    ensures orig[a].sp <= orig[b].sp
  {
    assert a < b ==> ActionCmp(orig[a], orig[b]) <= 0;
  }

  lemma Between(orig: seq<Action>, a: nat, b: nat, c: nat)
    requires Sorted(ActionCmp, orig) && a <= b <= c < |orig| && orig[a].sp == orig[c].sp
    ensures orig[b].sp == orig[a].sp
  {
    ListOrder(orig, a, b);
    ListOrder(orig, b, c);
  }

  /** The champion, and no other action on the lookahead, is as it was. */
  lemma ChampionLive(p: Precedence, orig: seq<Action>, k: nat, e: nat)
    requires FreshSorted(orig) && k < e <= |orig| && orig[k].sp == orig[e - 1].sp
    ensures if Champion(p, orig, e) == k then KindBy(p, orig, k, e) == orig[k].kind && Champion(p, orig, k + 1) == k
            else !Live(KindBy(p, orig, k, e))
  {
    hide Champion, Sorted;
    if Champion(p, orig, e) == k {
      ChampionFrom(p, orig, k, e);
      NotDethroned(p, orig, k, e);
    } else if Champion(p, orig, k + 1) == k {
      IsDethroned(p, orig, k, e);
    }
  }

  lemma NotDethroned(p: Precedence, orig: seq<Action>, k: nat, e: nat)
    requires Sorted(ActionCmp, orig) && k < e <= |orig| && orig[k].sp == orig[e - 1].sp && Champion(p, orig, e) == k
    ensures !Dethroned(p, orig, k, e)
  {
    hide Champion, Sorted;
    if l: nat :| k < l < e && orig[l].sp == orig[k].sp && Champion(p, orig, l + 1) != k {
      LaterChampion(p, orig, k, l, e);
    }
  }

  lemma IsDethroned(p: Precedence, orig: seq<Action>, k: nat, e: nat)
    requires k < e <= |orig| && orig[k].sp == orig[e - 1].sp && Champion(p, orig, e) != k && Champion(p, orig, k + 1) == k
    ensures Dethroned(p, orig, k, e)
  {
    hide Champion;
    var l: nat := e - 1;
    assert k < l < e <= |orig| && orig[l].sp == orig[k].sp && Champion(p, orig, l + 1) != k;
  }

  lemma {:induction false} ChampionFrom(p: Precedence, orig: seq<Action>, k: nat, e: nat)
    requires k < e <= |orig| && Champion(p, orig, e) == k
    ensures Champion(p, orig, k + 1) == k
    decreases e
  {
    if k < e - 1 {
      ChampionFrom(p, orig, k, e - 1);
    }
  }

  /** Looking at one more action on the lookahead. */
  lemma KindsStep(p: Precedence, orig: seq<Action>, k: nat, e: nat)
    requires FreshSorted(orig) && k < e < |orig| && orig[e].sp == orig[e - 1].sp
    ensures KindBy(p, orig, k, e + 1) ==
              if k == Champion(p, orig, e) && Dethrones(p, orig[k], orig[e]) then LostMark(orig[k]) else KindBy(p, orig, k, e)
  {
    if orig[k].sp == orig[e].sp {
      ChampionLive(p, orig, k, e);
      if k == Champion(p, orig, e) {
        if Dethrones(p, orig[k], orig[e]) {
          assert Champion(p, orig, e + 1) == e;
          assert Dethroned(p, orig, k, e + 1);
        }
      }
      DethronedMore(p, orig, k, e);
    } else {
      DethronedMore(p, orig, k, e);
    }
  }

  lemma DethronedMore(p: Precedence, orig: seq<Action>, k: nat, e: nat)
    requires k < e < |orig|
    ensures Dethroned(p, orig, k, e + 1) <==>
              Dethroned(p, orig, k, e) || (orig[e].sp == orig[k].sp && Champion(p, orig, e + 1) != k)
  {
    if Dethroned(p, orig, k, e) {
      var l: nat :| k < l < e && orig[l].sp == orig[k].sp && Champion(p, orig, l + 1) != k;
    }
    if Dethroned(p, orig, k, e + 1) {
      var l: nat :| k < l < e + 1 && orig[l].sp == orig[k].sp && Champion(p, orig, l + 1) != k;
    }
  }

  lemma NewKind(p: Precedence, orig: seq<Action>, e: nat)
    requires e < |orig|
    ensures KindBy(p, orig, e, e + 1) ==
              if Champion(p, orig, e + 1) == e then orig[e].kind else LossMark(p, orig[Champion(p, orig, e)], orig[e])
  {
  }

  /** The pair (i, j): if `i` holds the lookahead and `j` is next, one of them loses; otherwise nothing happens. */
  lemma TourneyStep(p: Precedence, orig: seq<Action>, now: seq<Action>, i: nat, j: nat)
    requires FreshSorted(orig) && Untied(p, orig) && Marked(orig, now) && i < j < |orig| && orig[i].sp == orig[j].sp
    requires Tourney(p, orig, now, i, j)
    ensures Tourney(p, orig, WithPair(p, now, i, j).0, i, j + 1)
  {
    hide ResolvePair, Dethrones, LossMark, KindBy, Untied;
    var e: nat :| TourneyAt(p, orig, now, i, j, e);
    var next := WithPair(p, now, i, j).0;
    if Champion(p, orig, e) == i && e == j {
      Contest(p, orig, now, i, j);
      assert TourneyAt(p, orig, next, i, j + 1, j + 1);
    } else {
      NoContest(p, orig, now, i, j, e);
      assert next == now;
      assert TourneyAt(p, orig, now, i, j + 1, e);
    }
  }

  lemma InOneGroup(orig: seq<Action>, i: nat, j: nat, e: nat)
    requires Sorted(ActionCmp, orig) && GroupEnds(orig, e) && i < e && j < |orig| && orig[i].sp == orig[e - 1].sp == orig[j].sp
    ensures j < e
  {
    if e <= j {
      ListOrder(orig, e - 1, e);
      ListOrder(orig, e, j);
    }
  }

  lemma NoContest(p: Precedence, orig: seq<Action>, now: seq<Action>, i: nat, j: nat, e: nat)
    requires FreshSorted(orig) && Untied(p, orig) && Marked(orig, now) && i < j < |orig| && orig[i].sp == orig[j].sp
    requires TourneyAt(p, orig, now, i, j, e) && !(Champion(p, orig, e) == i && e == j)
    ensures WithPair(p, now, i, j).0 == now
  {
    hide ResolvePair, KindBy;
    PairResolved(p, orig, now, i, j);
    ChampionLive(p, orig, i, e);
    if GroupEnds(orig, e) {
      InOneGroup(orig, i, j, e);
      ChampionLive(p, orig, j, e);
    }
  }

  lemma Contest(p: Precedence, orig: seq<Action>, now: seq<Action>, i: nat, j: nat)
    requires FreshSorted(orig) && Untied(p, orig) && Marked(orig, now) && i < j < |orig| && orig[i].sp == orig[j].sp
    requires TourneyAt(p, orig, now, i, j, j) && Champion(p, orig, j) == i
    ensures TourneyAt(p, orig, WithPair(p, now, i, j).0, i, j + 1, j + 1)
  {
    hide ResolvePair, Dethrones, LossMark, KindBy;
    var next := WithPair(p, now, i, j).0;
    ChampionLive(p, orig, i, j);
    assert now[i] == orig[i] && now[j] == orig[j];
    PairIs(p, orig, i, j);
    NewKind(p, orig, j);
    forall k: nat | k < j ensures next[k].kind == KindBy(p, orig, k, j + 1) {
      KindsStep(p, orig, k, j);
    }
  }

  lemma TourneyOver(p: Precedence, orig: seq<Action>, now: seq<Action>, i: nat, j: nat)
    requires FreshSorted(orig) && i < j <= |orig| && Tourney(p, orig, now, i, j) && (j < |orig| ==> orig[j].sp != orig[i].sp)
    requires orig[i].sp == orig[j - 1].sp
    ensures Tourney(p, orig, now, i + 1, i + 2)
  {
    hide KindBy, FreshSorted, Sorted;
    FreshIsSorted(orig);
    var e: nat :| TourneyAt(p, orig, now, i, j, e);
    if j < e {
      Between(orig, i, j, e - 1);
    }
    if i + 1 == |orig| {
    } else if orig[i + 1].sp == orig[i].sp {
      NextInGroup(p, orig, now, i, j, e);
    } else {
      NextGroup(p, orig, now, i, j, e);
    }
  }

  lemma NextInGroup(p: Precedence, orig: seq<Action>, now: seq<Action>, i: nat, j: nat, e: nat)
    requires FreshSorted(orig) && TourneyAt(p, orig, now, i, j, e) && i + 1 < |orig| && orig[i + 1].sp == orig[i].sp
    requires GroupEnds(orig, j) && e <= j && i < j && orig[i].sp == orig[j - 1].sp
    ensures TourneyAt(p, orig, now, i + 1, i + 2, e)
  {
    hide KindBy;
    if GroupEnds(orig, e) {
      InOneGroup(orig, i, i + 1, e);
    } else {
      assert i + 1 < j;
    }
  }

  lemma NextGroup(p: Precedence, orig: seq<Action>, now: seq<Action>, i: nat, j: nat, e: nat)
    requires FreshSorted(orig) && TourneyAt(p, orig, now, i, j, e) && i + 1 < |orig| && orig[i + 1].sp != orig[i].sp && e <= j
    requires i < j <= |orig| && orig[i].sp == orig[j - 1].sp
    ensures TourneyAt(p, orig, now, i + 1, i + 2, i + 2)
  {
    hide KindBy, FreshSorted, Sorted;
    FreshIsSorted(orig);
    if i + 1 < j {
      Between(orig, i, i + 1, j - 1);
    }
    assert e == i + 1;
    forall k: nat | k < i + 2 ensures now[k].kind == KindBy(p, orig, k, i + 2) {
      if k == i + 1 {
        NewKind(p, orig, k);
      } else {
        OtherGroup(p, orig, k, i + 1);
      }
    }
  }

  lemma OtherGroup(p: Precedence, orig: seq<Action>, k: nat, e: nat)
    requires FreshSorted(orig) && k < e < |orig| && orig[e].sp != orig[e - 1].sp
    ensures KindBy(p, orig, k, e + 1) == KindBy(p, orig, k, e)
  {
    DethronedMore(p, orig, k, e);
    ListOrder(orig, k, e - 1);
    ListOrder(orig, e - 1, e);
  }

  lemma FirstTourney(p: Precedence, orig: seq<Action>)
    ensures Tourney(p, orig, orig, 0, 1)
  {
    if orig != [] {
      NewKind(p, orig, 0);
      assert TourneyAt(p, orig, orig, 0, 1, 1);
    }
  }

  // ----- the same without the order of the turns

  ghost predicate HasShift(orig: seq<Action>, sp: nat) {
    exists s :: 0 <= s < |orig| && orig[s].sp == sp && orig[s].kind.SHIFT?
  }

  predicate ReduceOn(orig: seq<Action>, k: nat, sp: nat) {
    k < |orig| && orig[k].kind.REDUCE? && orig[k].sp == sp
  }

  /** Some rule before `e` takes precedence over a shift. */
  ghost predicate Beaten(p: Precedence, orig: seq<Action>, sp: nat, e: nat) {
    exists b: nat :: b < e && ReduceOn(orig, b, sp) && Beats(p, sp, orig[b].arg)
  }

  /** Of the reduces before `e`, `k` is the first of the highest level. */
  ghost predicate Highest(p: Precedence, orig: seq<Action>, k: nat, e: nat)
    requires k < |orig|
  {
    && RuleLevel(p, orig[k].arg) >= 0
    && forall l: nat :: l < e && ReduceOn(orig, l, orig[k].sp) ==>
         RuleLevel(p, orig[l].arg) <= RuleLevel(p, orig[k].arg) && (l < k ==> RuleLevel(p, orig[l].arg) < RuleLevel(p, orig[k].arg))
  }

  /** No action on the lookahead comes before. */
  ghost predicate IsFirst(orig: seq<Action>, k: nat)
    requires k < |orig|
  {
    forall l :: 0 <= l < k ==> orig[l].sp != orig[k].sp
  }

  /** Who holds the lookahead: the first shift as long as no rule takes precedence over it; then, or if there is none, the
      first rule of the highest level, or the very first if that has no level. */
  ghost predicate Holds(p: Precedence, orig: seq<Action>, m: nat, e: nat)
    requires m < e <= |orig|
  {
    match orig[m].kind
    case SHIFT => IsFirst(orig, m) && !Beaten(p, orig, orig[m].sp, e)
    case REDUCE =>
      || (Highest(p, orig, m, e) && (HasShift(orig, orig[m].sp) ==> Beats(p, orig[m].sp, orig[m].arg)))
      || (IsFirst(orig, m) && RuleLevel(p, orig[m].arg) < 0)
    case _ => IsFirst(orig, m)
  }

  lemma {:induction false} ChampionHolds(p: Precedence, orig: seq<Action>, e: nat)
    requires FreshSorted(orig) && 0 < e <= |orig|
    ensures Holds(p, orig, Champion(p, orig, e), e)
    decreases e
  {
    hide Holds, FreshSorted;
    if e == 1 || orig[e - 2].sp != orig[e - 1].sp {
      NewHolds(p, orig, e - 1);
    } else {
      ChampionHolds(p, orig, e - 1);
      HoldsStep(p, orig, Champion(p, orig, e - 1), e - 1);
    }
  }

  lemma NewHolds(p: Precedence, orig: seq<Action>, k: nat)
    requires FreshSorted(orig) && k < |orig| && (k == 0 || orig[k - 1].sp != orig[k].sp)
    ensures Holds(p, orig, k, k + 1)
  {
    forall l | 0 <= l < k ensures orig[l].sp < orig[k].sp {
      ListOrder(orig, l, k - 1);
      ListOrder(orig, k - 1, k);
    }
  }

  /** A lookahead whose first action is a reduce has no shift. */
  lemma NoShiftBehind(orig: seq<Action>, k: nat)
    requires FreshSorted(orig) && k < |orig| && IsFirst(orig, k) && orig[k].kind.REDUCE?
    ensures !HasShift(orig, orig[k].sp)
  {
    forall s | 0 <= s < |orig| && orig[s].sp == orig[k].sp ensures !orig[s].kind.SHIFT? {
      assert k < s ==> ActionCmp(orig[k], orig[s]) <= 0;
    }
  }

  lemma HoldsStep(p: Precedence, orig: seq<Action>, m: nat, e: nat)
    requires FreshSorted(orig) && m < e < |orig| && orig[m].sp == orig[e].sp && Holds(p, orig, m, e)
    ensures Holds(p, orig, if Dethrones(p, orig[m], orig[e]) then e else m, e + 1)
  {
    assert ActionCmp(orig[m], orig[e]) <= 0;
    if orig[m].kind.SHIFT? {
      ShiftHolds(p, orig, m, e);
    }
  }

  lemma ShiftHolds(p: Precedence, orig: seq<Action>, m: nat, e: nat)
    requires FreshSorted(orig) && m < e < |orig| && orig[m].sp == orig[e].sp && orig[m].kind.SHIFT?
    requires IsFirst(orig, m) && !Beaten(p, orig, orig[m].sp, e)
    ensures if Dethrones(p, orig[m], orig[e]) then Highest(p, orig, e, e + 1) else !Beaten(p, orig, orig[m].sp, e + 1)
  {
    if Dethrones(p, orig[m], orig[e]) {
      forall l: nat | l < e && ReduceOn(orig, l, orig[e].sp) ensures RuleLevel(p, orig[l].arg) < RuleLevel(p, orig[e].arg) {
        assert !Beats(p, orig[m].sp, orig[l].arg);
      }
    }
  }

  // ----- what becomes of each action

  /** The level of the rule is missing, or that of one before it, higher than none between, is the same. */
  ghost predicate Matched(p: Precedence, orig: seq<Action>, k: nat)
    requires k < |orig|
  {
    var level := RuleLevel(p, orig[k].arg);
    level < 0 ||
    ((exists l: nat :: l < k && ReduceOn(orig, l, orig[k].sp) && RuleLevel(p, orig[l].arg) == level)
     && forall l: nat :: l < k && ReduceOn(orig, l, orig[k].sp) ==> RuleLevel(p, orig[l].arg) <= level)
  }

  /** The lookahead has no shift, and its first rule has no level. */
  ghost predicate Unranked(p: Precedence, orig: seq<Action>, sp: nat) {
    !HasShift(orig, sp) && exists f: nat :: ReduceOn(orig, f, sp) && IsFirst(orig, f) && RuleLevel(p, orig[f].arg) < 0
  }

  ghost function ReduceFate(p: Precedence, orig: seq<Action>, k: nat): Kind
    requires k < |orig|
  {
    var sp := orig[k].sp;
    if HasShift(orig, sp) && !Beaten(p, orig, sp, k + 1) then
      if Level(p, sp) < 0 || RuleLevel(p, orig[k].arg) < 0 then SRCONFLICT else RD_RESOLVED
    else if Unranked(p, orig, sp) then if IsFirst(orig, k) then REDUCE else RRCONFLICT
    else if Highest(p, orig, k, |orig|) then REDUCE
    else if Matched(p, orig, k) then RRCONFLICT
    else RD_RESOLVED
  }

  ghost function ShiftFate(p: Precedence, orig: seq<Action>, k: nat): Kind
    requires k < |orig|
  {
    if !IsFirst(orig, k) then SSCONFLICT else if Beaten(p, orig, orig[k].sp, |orig|) then SH_RESOLVED else SHIFT
  }

  /** What precedence and associativity make of every action. */
  ghost predicate Decides(p: Precedence, orig: seq<Action>, acts: seq<Action>) {
    |acts| == |orig| && forall k: nat :: k < |orig| ==> acts[k].kind == Fate(p, orig, k)
  }

  ghost function Fate(p: Precedence, orig: seq<Action>, k: nat): Kind
    requires k < |orig|
  {
    if orig[k].kind.SHIFT? then ShiftFate(p, orig, k)
    else if orig[k].kind.REDUCE? then ReduceFate(p, orig, k)
    else orig[k].kind
  }

  /** Behind `k` the lookahead ends. */
  lemma {:induction false} FindEnd(orig: seq<Action>, k: nat, e: nat) returns (end: nat)
    requires Sorted(ActionCmp, orig) && k < e <= |orig| && orig[e - 1].sp == orig[k].sp
    ensures k < end && GroupEnds(orig, end) && orig[end - 1].sp == orig[k].sp
    ensures forall l: nat :: l < |orig| && orig[l].sp == orig[k].sp ==> l < end
    decreases |orig| - e
  {
    if GroupEnds(orig, e) {
      end := e;
      forall l: nat | l < |orig| && orig[l].sp == orig[k].sp ensures l < end {
        InOneGroup(orig, k, l, e);
      }
    } else {
      end := FindEnd(orig, k, e + 1);
    }
  }

  lemma StartIsChampion(p: Precedence, orig: seq<Action>, k: nat)
    requires k < |orig| && IsFirst(orig, k)
    ensures Champion(p, orig, k + 1) == k
  {
  }

  /** A first rule without a level is not won over. */
  lemma {:induction false} WeakStays(p: Precedence, orig: seq<Action>, f: nat, e: nat)
    requires Sorted(ActionCmp, orig) && f < e <= |orig| && orig[f].sp == orig[e - 1].sp && IsFirst(orig, f)
    requires orig[f].kind.REDUCE? && RuleLevel(p, orig[f].arg) < 0
    ensures Champion(p, orig, e) == f
    decreases e
  {
    if e == f + 1 {
      StartIsChampion(p, orig, f);
    } else {
      Between(orig, f, e - 2, e - 1);
      WeakStays(p, orig, f, e - 1);
    }
  }

  lemma OneHighest(p: Precedence, orig: seq<Action>, k: nat, m: nat, e: nat)
    requires m < |orig| && ReduceOn(orig, k, orig[m].sp) && ReduceOn(orig, m, orig[m].sp) && k < e && m < e
    requires Highest(p, orig, k, e) && Highest(p, orig, m, e)
    ensures k == m
  {
  }

  /** An action that once held the lookahead is live in the end if it still does. */
  lemma KindAtEnd(p: Precedence, orig: seq<Action>, k: nat, end: nat)
    requires FreshSorted(orig) && k < end && GroupEnds(orig, end) && orig[end - 1].sp == orig[k].sp && Champion(p, orig, k + 1) == k
    requires forall l: nat :: l < |orig| && orig[l].sp == orig[k].sp ==> l < end
    ensures KindBy(p, orig, k, |orig|) == if Champion(p, orig, end) == k then orig[k].kind else LostMark(orig[k])
  {
    hide Champion, FreshSorted;
    assert Dethroned(p, orig, k, |orig|) ==> Dethroned(p, orig, k, end) by {
      if l: nat :| k < l < |orig| && orig[l].sp == orig[k].sp && Champion(p, orig, l + 1) != k {
        assert l < end;
      }
    }
    if Champion(p, orig, end) == k {
      FreshIsSorted(orig);
      NotDethroned(p, orig, k, end);
    } else {
      IsDethroned(p, orig, k, end);
      assert Dethroned(p, orig, k, |orig|) by {
        var l: nat :| k < l < end && orig[l].sp == orig[k].sp && Champion(p, orig, l + 1) != k;
      }
    }
  }

  /** A rule that once held the lookahead holds it in the end exactly if it is the first of the highest level. */
  lemma WinsIfHighest(p: Precedence, orig: seq<Action>, k: nat, end: nat)
    requires FreshSorted(orig) && k < end && GroupEnds(orig, end) && orig[end - 1].sp == orig[k].sp && orig[k].kind.REDUCE?
    requires forall l: nat :: l < |orig| && orig[l].sp == orig[k].sp ==> l < end
    requires RuleLevel(p, orig[k].arg) >= 0 && Highest(p, orig, k, k + 1) && !Unranked(p, orig, orig[k].sp)
    requires HasShift(orig, orig[k].sp) ==> Beaten(p, orig, orig[k].sp, k + 1)
    ensures Champion(p, orig, end) == k <==> Highest(p, orig, k, |orig|)
  {
    hide Champion;
    ChampionHolds(p, orig, end);
    var m := Champion(p, orig, end);
    assert ReduceOn(orig, k, orig[k].sp);
    assert orig[m].kind.SHIFT? ==> HasShift(orig, orig[k].sp);
    assert HasShift(orig, orig[k].sp) ==> Beaten(p, orig, orig[k].sp, end);
    if orig[m].kind.REDUCE? {
      assert ReduceOn(orig, m, orig[k].sp);
      if IsFirst(orig, m) && RuleLevel(p, orig[m].arg) < 0 {
        NoShiftBehind(orig, m);
      }
      if Highest(p, orig, k, |orig|) {
        OneHighest(p, orig, k, m, end);
      }
    }
  }

  lemma ShiftFateIs(p: Precedence, orig: seq<Action>, k: nat)
    requires FreshSorted(orig) && k < |orig| && orig[k].kind.SHIFT?
    ensures KindBy(p, orig, k, |orig|) == ShiftFate(p, orig, k)
  {
    hide Champion;
    if IsFirst(orig, k) {
      var end := FindEnd(orig, k, k + 1);
      StartIsChampion(p, orig, k);
      KindAtEnd(p, orig, k, end);
      ChampionHolds(p, orig, end);
      FirstShiftHolds(p, orig, k, end);
    } else {
      LaterShift(p, orig, k);
    }
  }

  lemma FirstShiftHolds(p: Precedence, orig: seq<Action>, k: nat, end: nat)
    requires FreshSorted(orig) && k < end <= |orig| && orig[k].kind.SHIFT? && IsFirst(orig, k) && orig[end - 1].sp == orig[k].sp
    requires forall l: nat :: l < |orig| && orig[l].sp == orig[k].sp ==> l < end
    requires Holds(p, orig, Champion(p, orig, end), end)
    ensures Champion(p, orig, end) == k <==> !Beaten(p, orig, orig[k].sp, |orig|)
  {
    hide Champion;
    var m := Champion(p, orig, end);
    assert HasShift(orig, orig[k].sp);
    assert Beaten(p, orig, orig[k].sp, |orig|) ==> Beaten(p, orig, orig[k].sp, end) by {
      if b: nat :| b < |orig| && ReduceOn(orig, b, orig[k].sp) && Beats(p, orig[k].sp, orig[b].arg) {
        assert b < end;
      }
    }
    if orig[m].kind.REDUCE? {
      assert IsFirst(orig, m) ==> m == k;
      assert ReduceOn(orig, m, orig[k].sp);
    }
  }

  lemma LaterShift(p: Precedence, orig: seq<Action>, k: nat)
    requires FreshSorted(orig) && k < |orig| && orig[k].kind.SHIFT? && !IsFirst(orig, k)
    ensures KindBy(p, orig, k, |orig|) == SSCONFLICT
  {
    var l :| 0 <= l < k && orig[l].sp == orig[k].sp;
    Between(orig, l, k - 1, k);
    var m := Champion(p, orig, k);
    assert ActionCmp(orig[m], orig[k]) <= 0;
  }

  lemma ReduceFateIs(p: Precedence, orig: seq<Action>, k: nat)
    requires FreshSorted(orig) && k < |orig| && orig[k].kind.REDUCE?
    ensures KindBy(p, orig, k, |orig|) == ReduceFate(p, orig, k)
  {
    hide Champion, KindBy, Highest, Beaten, Matched;
    if IsFirst(orig, k) {
      FirstReduce(p, orig, k);
    } else {
      var l :| 0 <= l < k && orig[l].sp == orig[k].sp;
      Between(orig, l, k - 1, k);
      ChampionHolds(p, orig, k);
      var m := Champion(p, orig, k);
      if orig[m].kind.SHIFT? {
        AgainstShift(p, orig, k, m);
      } else {
        AgainstReduce(p, orig, k, m);
      }
    }
  }

  lemma FirstReduce(p: Precedence, orig: seq<Action>, k: nat)
    requires FreshSorted(orig) && k < |orig| && orig[k].kind.REDUCE? && IsFirst(orig, k)
    ensures KindBy(p, orig, k, |orig|) == ReduceFate(p, orig, k)
  {
    hide Champion, KindBy;
    var end := FindEnd(orig, k, k + 1);
    StartIsChampion(p, orig, k);
    KindAtEnd(p, orig, k, end);
    NoShiftBehind(orig, k);
    assert ReduceOn(orig, k, orig[k].sp);
    if RuleLevel(p, orig[k].arg) < 0 {
      WeakStays(p, orig, k, end);
    } else {
      assert !Unranked(p, orig, orig[k].sp) by {
        forall f: nat | ReduceOn(orig, f, orig[k].sp) && IsFirst(orig, f) ensures f == k {
        }
      }
      WinsIfHighest(p, orig, k, end);
    }
  }

  lemma AgainstShift(p: Precedence, orig: seq<Action>, k: nat, m: nat)
    requires FreshSorted(orig) && 0 < k < |orig| && orig[k].kind.REDUCE? && orig[k - 1].sp == orig[k].sp
    requires m == Champion(p, orig, k) && orig[m].kind.SHIFT? && Holds(p, orig, m, k)
    ensures KindBy(p, orig, k, |orig|) == ReduceFate(p, orig, k)
  {
    assert HasShift(orig, orig[k].sp);
    ChampionStep(p, orig, k);
    hide Champion;
    assert ReduceOn(orig, k, orig[k].sp);
    if Beats(p, orig[k].sp, orig[k].arg) {
      assert Beaten(p, orig, orig[k].sp, k + 1);
      ShiftHolds(p, orig, m, k);
      var end := FindEnd(orig, k, k + 1);
      WinsIfHighest(p, orig, k, end);
      KindAtEnd(p, orig, k, end);
    } else {
      hide Dethroned;
      assert !Beaten(p, orig, orig[k].sp, k + 1);
    }
  }

  lemma ChampionStep(p: Precedence, orig: seq<Action>, k: nat)
    requires 0 < k < |orig| && orig[k - 1].sp == orig[k].sp
    ensures Champion(p, orig, k + 1) == if Dethrones(p, orig[Champion(p, orig, k)], orig[k]) then k else Champion(p, orig, k)
  {
  }

  lemma AgainstReduce(p: Precedence, orig: seq<Action>, k: nat, m: nat)
    requires FreshSorted(orig) && 0 < k < |orig| && orig[k].kind.REDUCE? && orig[k - 1].sp == orig[k].sp
    requires m == Champion(p, orig, k) && !orig[m].kind.SHIFT? && Holds(p, orig, m, k)
    ensures KindBy(p, orig, k, |orig|) == ReduceFate(p, orig, k)
  {
    hide Champion, KindBy, ReduceFate;
    assert orig[m].kind.REDUCE?;
    if Dethrones(p, orig[m], orig[k]) {
      OverReduce(p, orig, k, m);
    } else {
      UnderReduce(p, orig, k, m);
    }
  }

  lemma OverReduce(p: Precedence, orig: seq<Action>, k: nat, m: nat)
    requires FreshSorted(orig) && 0 < k < |orig| && orig[k].kind.REDUCE? && orig[k - 1].sp == orig[k].sp
    requires m == Champion(p, orig, k) && orig[m].kind.REDUCE? && Holds(p, orig, m, k) && Dethrones(p, orig[m], orig[k])
    ensures KindBy(p, orig, k, |orig|) == ReduceFate(p, orig, k)
  {
    ChampionStep(p, orig, k);
    hide Champion;
    StillRanked(p, orig, k, m);
    assert ReduceOn(orig, m, orig[k].sp) && ReduceOn(orig, k, orig[k].sp);
    var end := FindEnd(orig, k, k + 1);
    WinsIfHighest(p, orig, k, end);
    KindAtEnd(p, orig, k, end);
    hide Unranked, Beaten, HasShift;
    assert !Matched(p, orig, k);
  }

  lemma UnderReduce(p: Precedence, orig: seq<Action>, k: nat, m: nat)
    requires FreshSorted(orig) && 0 < k < |orig| && orig[k].kind.REDUCE? && orig[k - 1].sp == orig[k].sp
    requires m == Champion(p, orig, k) && orig[m].kind.REDUCE? && Holds(p, orig, m, k) && !Dethrones(p, orig[m], orig[k])
    ensures KindBy(p, orig, k, |orig|) == ReduceFate(p, orig, k)
  {
    ChampionStep(p, orig, k);
    hide Champion, Dethroned;
    assert ReduceOn(orig, m, orig[k].sp) && ReduceOn(orig, k, orig[k].sp);
    if RuleLevel(p, orig[m].arg) < 0 {
      NoShiftBehind(orig, m);
      assert Unranked(p, orig, orig[k].sp);
    } else {
      StillRanked(p, orig, k, m);
      hide Unranked, Beaten, HasShift;
      assert !Highest(p, orig, k, |orig|);
    }
  }

  lemma StillRanked(p: Precedence, orig: seq<Action>, k: nat, m: nat)
    requires FreshSorted(orig) && 0 < k < |orig| && orig[k - 1].sp == orig[k].sp && m == Champion(p, orig, k)
    requires orig[m].kind.REDUCE? && RuleLevel(p, orig[m].arg) >= 0 && Holds(p, orig, m, k)
    ensures !Unranked(p, orig, orig[k].sp) && (HasShift(orig, orig[k].sp) ==> Beaten(p, orig, orig[k].sp, k + 1))
  {
    hide Champion;
    assert ReduceOn(orig, m, orig[k].sp);
    if Unranked(p, orig, orig[k].sp) {
      var f: nat :| ReduceOn(orig, f, orig[k].sp) && IsFirst(orig, f) && RuleLevel(p, orig[f].arg) < 0;
      WeakStays(p, orig, f, k);
    }
  }

  /** Champion by champion comes to the same. */
  lemma FateIs(p: Precedence, orig: seq<Action>, k: nat)
    requires FreshSorted(orig) && k < |orig|
    ensures KindBy(p, orig, k, |orig|) == Fate(p, orig, k)
  {
    hide KindBy, ShiftFate, ReduceFate;
    if orig[k].kind.SHIFT? {
      ShiftFateIs(p, orig, k);
    } else if orig[k].kind.REDUCE? {
      ReduceFateIs(p, orig, k);
    } else {
      AcceptStays(p, orig, k);
    }
  }

  lemma AcceptStays(p: Precedence, orig: seq<Action>, k: nat)
    requires FreshSorted(orig) && k < |orig| && orig[k].kind.ACCEPT?
    ensures KindBy(p, orig, k, |orig|) == ACCEPT
  {
    assert IsFirst(orig, k);
    StartIsChampion(p, orig, k);
  }

  /** What holds between two pairs. */
  ghost predicate TurnInv(p: Precedence, orig: seq<Action>, now: seq<Action>, count: nat, i: nat, j: nat) {
    && PassInv(orig, now, count, i, j)
    && (forall a :: 0 <= a < |orig| && Alone(orig, a) ==> now[a] == orig[a])
    && (NoLevels(p) ==> FirstsWin(now, i, j)) && Tourney(p, orig, now, i, j)
  }

  lemma Turn(p: Precedence, orig: seq<Action>, now: seq<Action>, count: nat, i: nat, j: nat)
    requires FreshSorted(orig) && Untied(p, orig) && i < j < |orig| == |now| && orig[i].sp == orig[j].sp
    requires TurnInv(p, orig, now, count, i, j)
    ensures TurnInv(p, orig, WithPair(p, now, i, j).0, count + WithPair(p, now, i, j).1, i, j + 1)
  {
    hide FirstsWin, NoLevels, FreshSorted, Untied, ResolvePair, PairsDone, Tourney;
    PairStep(p, orig, now, count, i, j);
    TourneyStep(p, orig, now, i, j);
    if NoLevels(p) {
      FirstWins(p, orig, now, i, j);
    }
    assert !Alone(orig, i) && !Alone(orig, j);
  }

  lemma Lengths(p: Precedence, orig: seq<Action>, now: seq<Action>, count: nat, i: nat, j: nat)
    requires TurnInv(p, orig, now, count, i, j)
    ensures |now| == |orig| && forall k :: 0 <= k < |now| ==> now[k].sp == orig[k].sp
  {
  }

  lemma GroupIsOver(p: Precedence, orig: seq<Action>, acts: seq<Action>, count: nat, i: nat, j: nat)
    requires FreshSorted(orig) && i < j <= |orig| && TurnInv(p, orig, acts, count, i, j)
    requires |acts| == |orig| && (j < |orig| ==> acts[j].sp != acts[i].sp) && acts[i].sp == acts[j - 1].sp
    ensures TurnInv(p, orig, acts, count, i + 1, i + 2)
  {
    hide NoLevels, Tourney, PairsDone, FirstsWin, FreshSorted, SomeLive, Alone;
    Lengths(p, orig, acts, count, i, j);
    TourneyOver(p, orig, acts, i, j);
    NoneBehind(orig, acts, i, j);
    PairsOver(acts, i, j);
    if NoLevels(p) {
      FirstsOver(acts, i, j);
    }
  }

  lemma NoneBehind(orig: seq<Action>, acts: seq<Action>, i: nat, j: nat)
    requires FreshSorted(orig) && i < j <= |orig| == |acts| && forall k :: 0 <= k < |acts| ==> acts[k].sp == orig[k].sp
    requires j < |orig| ==> acts[j].sp != acts[i].sp
    ensures forall b :: j <= b < |acts| ==> acts[b].sp != acts[i].sp
  {
    forall b | j <= b < |orig| ensures acts[b].sp != acts[i].sp {
      ListOrder(orig, i, j);
      ListOrder(orig, j, b);
    }
  }

  lemma PairsOver(acts: seq<Action>, i: nat, j: nat)
    requires i < j <= |acts| && PairsDone(acts, i, j) && forall b :: j <= b < |acts| ==> acts[b].sp != acts[i].sp
    ensures PairsDone(acts, i + 1, i + 2)
  {
  }

  lemma FirstsOver(acts: seq<Action>, i: nat, j: nat)
    requires i < j <= |acts| && FirstsWin(acts, i, j) && forall b :: j <= b < |acts| ==> acts[b].sp != acts[i].sp
    ensures FirstsWin(acts, i + 1, i + 2)
  {
  }

  lemma FirstTurn(p: Precedence, orig: seq<Action>)
    requires FreshSorted(orig)
    ensures TurnInv(p, orig, orig, 0, 0, 1)
  {
    hide Tourney;
    NoConflictsYet(orig);
    FirstTourney(p, orig);
  }

  lemma AllTurns(p: Precedence, orig: seq<Action>, acts: seq<Action>, count: nat)
    requires FreshSorted(orig) && TurnInv(p, orig, acts, count, |orig|, |orig| + 1)
    ensures Decides(p, orig, acts)
    ensures Marked(orig, acts) && count == ConflictCount(acts)
    ensures forall i :: 0 <= i < |acts| ==> SomeLive(acts, i)
    ensures forall i, j :: 0 <= i < j < |acts| && acts[i].sp == acts[j].sp ==> !(Live(acts[i].kind) && Live(acts[j].kind))
    ensures forall i :: 0 <= i < |acts| && Alone(orig, i) ==> acts[i] == orig[i]
    ensures NoLevels(p) ==> forall i, j :: 0 <= i < j < |acts| && acts[i].sp == acts[j].sp ==> !Live(acts[j].kind)
  {
    hide KindBy, Fate;
    forall k: nat | k < |orig| ensures acts[k].kind == Fate(p, orig, k) {
      FateIs(p, orig, k);
    }
  }

  /** The pairwise pass over a sorted action list: every action ends as precedence and associativity decide; every
      lookahead that had an action keeps exactly one, which is the first of them if there are no precedences; an action
      alone on its lookahead is left alone; and the count returned is the number of actions marked as conflicts. */
  method ResolveAll(p: Precedence, orig: seq<Action>) returns (acts: seq<Action>, count: nat)
    requires FreshSorted(orig) && Untied(p, orig)
    ensures Decides(p, orig, acts)
    ensures Marked(orig, acts) && count == ConflictCount(acts)
    ensures forall i :: 0 <= i < |acts| ==> SomeLive(acts, i)
    ensures forall i, j :: 0 <= i < j < |acts| && acts[i].sp == acts[j].sp ==> !(Live(acts[i].kind) && Live(acts[j].kind))
    ensures forall i :: 0 <= i < |acts| && Alone(orig, i) ==> acts[i] == orig[i]
    ensures NoLevels(p) ==> forall i, j :: 0 <= i < j < |acts| && acts[i].sp == acts[j].sp ==> !Live(acts[j].kind)
  {
    hide TurnInv, NoLevels, FreshSorted, Untied, ResolvePair, Decides;
    acts, count := orig, 0;
    FirstTurn(p, orig);
    for i := 0 to |orig|
      invariant |acts| == |orig| && TurnInv(p, orig, acts, count, i, i + 1)
    {
      var j := i + 1;
      while j < |orig| && acts[j].sp == acts[i].sp
        invariant i < j <= |orig| == |acts| && TurnInv(p, orig, acts, count, i, j) && acts[i].sp == acts[j - 1].sp
      {
        Lengths(p, orig, acts, count, i, j);
        Turn(p, orig, acts, count, i, j);
        var (next, n) := WithPair(p, acts, i, j);
        assert next[i].sp == acts[i].sp && next[j].sp == acts[j].sp;
        acts, count := next, count + n;
        j := j + 1;
      }
      GroupIsOver(p, orig, acts, count, i, j);
    }
    AllTurns(p, orig, acts, count);
  }
}
