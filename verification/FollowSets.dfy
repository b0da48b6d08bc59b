/** FindLinks and FindFollowSets of lemon. */
module FollowSets {
  // From tools/lemon/lemon.c: follow-sets are passed along propagation links until nothing changes.

  import opened Grammars
  import opened FirstSets
  import opened LrTheory
  import opened ConfigClosure
  import opened States

  type Links = map<ConfigRef, set<ConfigRef>>

  type Family = Follow

  ghost predicate WfLinks(links: Links, fws: Family) {
    && links.Keys == fws.Keys
    && forall a, b :: a in links && b in links[a] ==> b in fws
  }

  /** What follows `a` follows everything it is linked to. */
  ghost predicate Satisfied(links: Links, f: Family, a: ConfigRef) {
    a in links && a in f && forall b :: b in links[a] ==> b in f && f[a] <= f[b]
  }

  ghost predicate Below(f: Family, h: Family) {
    forall a :: a in f ==> a in h && f[a] <= h[a]
  }

  ghost predicate ClosedFamily(links: Links, f: Family) {
    forall a {:trigger Satisfied(links, f, a)} :: a in links ==> Satisfied(links, f, a)
  }

  /** `f` is inside every closed family that has the initial sets. */
  ghost predicate InsideAt(links: Links, f0: Family, f: Family, h: Family) {
    Below(f0, h) && ClosedFamily(links, h) ==> Below(f, h)
  }

  ghost function Tokens(f: Family): set<nat> {
    set a, t | a in f && t in f[a] :: t
  }

  ghost function Lacking(f0: Family, f: Family): set<(ConfigRef, nat)> {
    set a, t | a in f && t in Tokens(f0) && t !in f[a] :: (a, t)
  }

  /** Holds all the time: the initial sets have grown, but not beyond what closedness asks for. */
  ghost predicate Growing(links: Links, f0: Family, f: Family) {
    && WfLinks(links, f0) && f.Keys == f0.Keys && Below(f0, f)
    && (forall a :: a in f ==> f[a] <= Tokens(f0))
    && (forall h :: InsideAt(links, f0, f, h))
  }

  lemma GrowOne(links: Links, f0: Family, f: Family, a: ConfigRef, b: ConfigRef)
    requires Growing(links, f0, f) && a in links && b in links[a] && !(f[a] <= f[b])
    ensures var f' := f[b := f[b] + f[a]]; Growing(links, f0, f') && Lacking(f0, f') < Lacking(f0, f)
  {
    var f' := f[b := f[b] + f[a]];
    forall h ensures InsideAt(links, f0, f', h) {
      assert InsideAt(links, f0, f, h);
      if Below(f0, h) && ClosedFamily(links, h) {
        assert Satisfied(links, h, a);
      }
    }
    var t :| t in f[a] && t !in f[b];
    assert (b, t) in Lacking(f0, f) && (b, t) !in Lacking(f0, f');
  }

  /** The turn of one INCOMPLETE configuration: its follow-set goes along each of its links. */
  method Propagate(links: Links, f0: Family, f: Family, complete: set<ConfigRef>, cfp: ConfigRef)
    returns (f': Family, complete': set<ConfigRef>, change: bool)
    requires Growing(links, f0, f) && cfp in links && cfp !in complete
    requires forall a :: a in complete ==> Satisfied(links, f, a)
    ensures Growing(links, f0, f') && cfp in complete'
    ensures forall a :: a in complete' ==> Satisfied(links, f', a)
    ensures if change then Lacking(f0, f') < Lacking(f0, f) else f' == f && complete <= complete'
  {
    f', complete', change := f, complete, false;
    var todo := links[cfp];
    while todo != {}
      invariant todo <= links[cfp] && cfp !in complete' && Growing(links, f0, f')
      invariant forall b :: b in links[cfp] - todo ==> f'[cfp] <= f'[b]
      invariant forall a :: a in complete' ==> Satisfied(links, f', a)
      invariant if change then Lacking(f0, f') < Lacking(f0, f) else f' == f && complete' == complete
    {
      var b :| b in todo;
      if !(f'[cfp] <= f'[b]) {
        GrowOne(links, f0, f', cfp, b);
        f' := f'[b := f'[b] + f'[cfp]];
        complete' := complete' - {b};
        change := true;
      }
      todo := todo - {b};
    }
    complete' := complete' + {cfp};
  }

  /** FindFollowSets: the least family of follow-sets with the initial ones that is closed under all
      links. A COMPLETE configuration has its links satisfied all along. */
  method FindFollowSets(refs: seq<ConfigRef>, links: Links, f0: Family) returns (f: Family)
    requires WfLinks(links, f0) && forall a :: a in refs <==> a in links
    ensures f.Keys == f0.Keys && Below(f0, f) && ClosedFamily(links, f)
    ensures forall h :: InsideAt(links, f0, f, h)
  {
    f := f0;
    var complete: set<ConfigRef> := {};
    var progress := true;
    while progress
      invariant Growing(links, f0, f)
      invariant forall a :: a in complete ==> Satisfied(links, f, a)
      invariant !progress ==> forall a :: a in refs ==> a in complete
      decreases Lacking(f0, f), progress
    {
      progress := false;
      ghost var before := f;
      for i := 0 to |refs|
        invariant Growing(links, f0, f)
        invariant forall a :: a in complete ==> Satisfied(links, f, a)
        invariant if progress then Lacking(f0, f) < Lacking(f0, before)
                  else f == before && forall j :: 0 <= j < i ==> refs[j] in complete
      {
        assert refs[i] in links;
        if refs[i] !in complete {
          var change;
          f, complete, change := Propagate(links, f0, f, complete, refs[i]);
          progress := progress || change;
        }
      }
    }
  }

  // ----- the links and initial sets of the states

  ghost predicate IsConfig(ss: seq<State>, a: ConfigRef) {
    a.state < |ss| && a.item in ss[a.state].configs
  }

  /** A propagation link: within a closure, or from a configuration to its advanced form. */
  ghost predicate Linked(ss: seq<State>, a: ConfigRef, b: ConfigRef) {
    && a.state < |ss| && b.state < |ss|
    && ((a.state == b.state && (a.item, b.item) in ss[a.state].flinks) || (b.item, a) in ss[b.state].blinks)
  }

  function ForwardOnly(ss: seq<State>, a: ConfigRef): set<ConfigRef> {
    if a.state < |ss| then set p | p in ss[a.state].flinks && p.0 == a.item :: ConfigRef(a.state, p.1) else {}
  }

  method ListConfigs(ss: seq<State>) returns (refs: seq<ConfigRef>)
    ensures forall a :: a in refs <==> IsConfig(ss, a)
  {
    refs := [];
    for i := 0 to |ss|
      invariant forall a :: a in refs <==> IsConfig(ss, a) && a.state < i
    {
      for k := 0 to |ss[i].configs|
        invariant forall a :: a in refs <==> (IsConfig(ss, a) && a.state < i) || (a.state == i && a.item in ss[i].configs[..k])
      {
        assert ss[i].configs[..k + 1] == ss[i].configs[..k] + [ss[i].configs[k]];
        refs := refs + [ConfigRef(i, ss[i].configs[k])];
      }
      assert ss[i].configs[..|ss[i].configs|] == ss[i].configs;
    }
  }

  /** The back links of state `i` become forward links of the configurations they point to. */
  method TurnAround(i: nat, blinks: set<(Item, ConfigRef)>, links: Links) returns (links': Links)
    requires forall p :: p in blinks ==> p.1 in links
    ensures links'.Keys == links.Keys
    ensures forall a, b :: a in links ==> (b in links'[a] <==> b in links[a] || (b.state == i && (b.item, a) in blinks))
  {
    links' := links;
    var todo := blinks;
    while todo != {}
      invariant todo <= blinks && links'.Keys == links.Keys
      invariant forall a, b :: a in links ==> (b in links'[a] <==> b in links[a] || (b.state == i && (b.item, a) in blinks - todo))
    {
      var p :| p in todo;
      links' := links'[p.1 := links'[p.1] + {ConfigRef(i, p.0)}];
      todo := todo - {p};
    }
  }

  ghost predicate TurnedBelow(ss: seq<State>, i: nat, a: ConfigRef, b: ConfigRef) {
    b in ForwardOnly(ss, a) || (b.state < i && b.state < |ss| && (b.item, a) in ss[b.state].blinks)
  }

  lemma TurnedAll(ss: seq<State>)
    ensures forall a: ConfigRef, b: ConfigRef :: a.state < |ss| ==> (TurnedBelow(ss, |ss|, a, b) <==> Linked(ss, a, b))
  {
  }

  lemma BlinkPoints(g: Grammar, ss: seq<State>, i: nat)
    requires AllStates(g, ss) && i < |ss|
    ensures forall p :: p in ss[i].blinks ==> IsConfig(ss, p.1)
  {
    forall p | p in ss[i].blinks ensures IsConfig(ss, p.1) {
      assert BlinkOk(g, ss, i, p.0, p.1);
    }
  }

  /** FindLinks: all links as forward links. */
  method FindLinks(g: Grammar, ss: seq<State>, refs: seq<ConfigRef>) returns (links: Links)
    requires AllStates(g, ss) && forall a :: a in refs <==> IsConfig(ss, a)
    ensures forall a :: a in links <==> IsConfig(ss, a)
    ensures forall a, b :: a in links ==> (b in links[a] <==> Linked(ss, a, b))
  {
    hide AllStates, ForwardOnly;
    links := map a | a in refs :: ForwardOnly(ss, a);
    for i := 0 to |ss|
      invariant forall a :: a in links <==> IsConfig(ss, a)
      invariant forall a, b :: a in links ==> (b in links[a] <==> TurnedBelow(ss, i, a, b))
    {
      BlinkPoints(g, ss, i);
      links := TurnAround(i, ss[i].blinks, links);
    }
    TurnedAll(ss);
  }

  // ----- what the follow-sets mean

  ghost predicate RefAt(ss: seq<State>, links: Links, f0: Family, a: ConfigRef) {
    && (a in links <==> IsConfig(ss, a)) && (a in f0 <==> IsConfig(ss, a))
    && (a in f0 ==> a.item in ss[a.state].fws && f0[a] == ss[a.state].fws[a.item])
  }

  ghost predicate LinkAt(ss: seq<State>, links: Links, a: ConfigRef, b: ConfigRef) {
    a in links ==> (b in links[a] <==> Linked(ss, a, b))
  }

  /** `f` was computed from the states' links and first follow-sets. */
  ghost predicate Computed(g: Grammar, ss: seq<State>, links: Links, f0: Family, f: Family) {
    && AllStates(g, ss)
    && (forall a :: RefAt(ss, links, f0, a))
    && (forall a, b :: LinkAt(ss, links, a, b))
    && f.Keys == f0.Keys && Below(f0, f) && ClosedFamily(links, f)
    && (forall h :: InsideAt(links, f0, f, h))
  }

  lemma CarriedLink(g: Grammar, ss: seq<State>, q: nat, it: Item, q': nat)
    requires AllStates(g, ss) && Has(AutomatonOf(ss), q, it) && Shiftable(g, it)
    requires Goes(AutomatonOf(ss), q, After(g, it), q')
    ensures Linked(ss, ConfigRef(q, it), ConfigRef(q', Advance(it)))
  {
    GoesIsEdge(g, ss, q, After(g, it), q');
    assert EdgeOk(g, ss, q, Edge(After(g, it), q'));
    BackLinksExact(g, ss, q', Advance(it), ConfigRef(q, it));
  }

  lemma InState(g: Grammar, ss: seq<State>, q: nat, it: Item)
    requires AllStates(g, ss) && q < |ss|
    ensures StateOk(g, ss[q])
    ensures Has(AutomatonOf(ss), q, it) <==> it in ss[q].configs
  {
  }

  lemma StatesOf(g: Grammar, ss: seq<State>, links: Links, f0: Family, f: Family)
    requires Computed(g, ss, links, f0, f)
    ensures AllStates(g, ss)
  {
  }

  lemma LinkHolds(g: Grammar, ss: seq<State>, links: Links, f0: Family, f: Family, a: ConfigRef, b: ConfigRef)
    requires Computed(g, ss, links, f0, f) && a in f && Linked(ss, a, b)
    ensures b in f && f[a] <= f[b]
  {
    hide AllStates, Linked, InsideAt;
    assert RefAt(ss, links, f0, a) && LinkAt(ss, links, a, b) && Satisfied(links, f, a);
  }

  /** The first follow-set of a configuration is part of its follow-set. */
  lemma FirstFollows(g: Grammar, ss: seq<State>, links: Links, f0: Family, f: Family, a: ConfigRef)
    requires Computed(g, ss, links, f0, f) && IsConfig(ss, a)
    ensures a in f && a.item in ss[a.state].fws && ss[a.state].fws[a.item] <= f[a]
  {
    hide AllStates, InsideAt, ClosedFamily;
    assert RefAt(ss, links, f0, a);
  }

  lemma CarriedIn(g: Grammar, ss: seq<State>, links: Links, f0: Family, f: Family, q: nat, it: Item, q': nat, t: nat)
    requires Computed(g, ss, links, f0, f)
    ensures CarriedAt(g, AutomatonOf(ss), f, q, it, q', t)
  {
    hide AllStates;
    var a := AutomatonOf(ss);
    if Has(a, q, it) && Shiftable(g, it) && Goes(a, q, After(g, it), q') && Follows(f, q, it, t) {
      CarriedLink(g, ss, q, it, q');
      LinkHolds(g, ss, links, f0, f, ConfigRef(q, it), ConfigRef(q', Advance(it)));
    }
  }

  lemma SpreadIn(g: Grammar, ss: seq<State>, links: Links, f0: Family, f: Family, q: nat, it: Item, r: nat, t: nat)
    requires Computed(g, ss, links, f0, f)
    ensures SpreadAt(g, AutomatonOf(ss), f, q, it, r, t)
  {
    hide AllStates, Computed;
    var a := AutomatonOf(ss);
    if Has(a, q, it) && Shiftable(g, it) && r < |g.rules| && After(g, it) == Sym(g.rules[r].lhs) {
      var it', beta := Item(r, 0), Tail(g, it);
      StatesOf(g, ss, links, f0, f);
      InState(g, ss, q, it);
      assert Calls(g, it, it') && it' in Elems(ss[q].configs);
      if FirstSeq(g, beta, t) {
        assert Brings(g, it, it', t) && BroughtIn(g, ss[q].configs, it', t);
        assert FwsAt(g, ss[q], it', t);
        FirstFollows(g, ss, links, f0, f, ConfigRef(q, it'));
      }
      if NullableSeq(g, beta) && Follows(f, q, it, t) {
        assert FlinkAt(g, ss[q], it, it');
        assert Linked(ss, ConfigRef(q, it), ConfigRef(q, it'));
        LinkHolds(g, ss, links, f0, f, ConfigRef(q, it), ConfigRef(q, it'));
      }
    }
  }

  lemma StartFollowed(g: Grammar, ss: seq<State>, links: Links, f0: Family, f: Family, r: nat)
    requires Computed(g, ss, links, f0, f) && r < |g.rules| && g.rules[r].lhs == g.start
    ensures Follows(f, 0, Item(r, 0), 0)
  {
    assert Item(r, 0) in StartItems(g);
    InState(g, ss, 0, Item(r, 0));
    assert FwsAt(g, ss[0], Item(r, 0), 0);
    FirstFollows(g, ss, links, f0, f, ConfigRef(0, Item(r, 0)));
  }

  /** The computed follow-sets are what the LALR(1) equations ask for... */
  lemma FollowsAreClosed(g: Grammar, ss: seq<State>, links: Links, f0: Family, f: Family)
    requires Computed(g, ss, links, f0, f)
    ensures FollowsClosed(g, AutomatonOf(ss), f)
  {
    hide Computed;
    var a := AutomatonOf(ss);
    forall r: nat | r < |g.rules| && g.rules[r].lhs == g.start ensures Follows(f, 0, Item(r, 0), 0) {
      StartFollowed(g, ss, links, f0, f, r);
    }
    forall q: nat, it, q': nat, t: nat ensures CarriedAt(g, a, f, q, it, q', t) {
      CarriedIn(g, ss, links, f0, f, q, it, q', t);
    }
    forall q: nat, it, r: nat, t: nat ensures SpreadAt(g, a, f, q, it, r, t) {
      SpreadIn(g, ss, links, f0, f, q, it, r, t);
    }
  }

  /** The family `h` cut down to (or padded out on) the configurations there are. */
  ghost function Fitted(f: Family, h: Family): Family {
    map a | a in f :: if a in h then h[a] else {}
  }

  lemma InitialInside(g: Grammar, ss: seq<State>, links: Links, f0: Family, f: Family, h: Family, a: ConfigRef, t: nat)
    requires Computed(g, ss, links, f0, f) && FollowsClosed(g, AutomatonOf(ss), h) && a in f0 && t in f0[a]
    ensures Follows(h, a.state, a.item, t)
  {
    assert RefAt(ss, links, f0, a);
    InState(g, ss, a.state, a.item);
    var st := ss[a.state];
    assert FwsAt(g, st, a.item, t);
    if BroughtIn(g, st.configs, a.item, t) {
      var src :| src in st.configs && Brings(g, src, a.item, t);
      InState(g, ss, a.state, src);
      assert a.item == Item(a.item.rule, 0);
      assert SpreadAt(g, AutomatonOf(ss), h, a.state, src, a.item.rule, t);
    } else {
      assert a.state == 0 && a.item in Elems(ss[0].basis);
    }
  }

  lemma LinkInside(g: Grammar, ss: seq<State>, links: Links, f0: Family, f: Family, h: Family, a: ConfigRef, b: ConfigRef, t: nat)
    requires Computed(g, ss, links, f0, f) && FollowsClosed(g, AutomatonOf(ss), h)
    requires IsConfig(ss, a) && Linked(ss, a, b) && Follows(h, a.state, a.item, t)
    ensures Follows(h, b.state, b.item, t)
  {
    InState(g, ss, a.state, a.item);
    if (b.item, a) in ss[b.state].blinks {
      BackLinksExact(g, ss, b.state, b.item, a);
      assert CarriedAt(g, AutomatonOf(ss), h, a.state, a.item, b.state, t);
    } else {
      assert FlinkAt(g, ss[a.state], a.item, b.item);
      assert b.item == Item(b.item.rule, 0);
      assert SpreadAt(g, AutomatonOf(ss), h, a.state, a.item, b.item.rule, t);
    }
  }

  /** ... and nothing more: they are inside every solution of those equations. */
  lemma FollowsAreLeast(g: Grammar, ss: seq<State>, links: Links, f0: Family, f: Family, h: Family)
    requires Computed(g, ss, links, f0, f) && FollowsClosed(g, AutomatonOf(ss), h)
    ensures forall q, it, t :: Follows(f, q, it, t) ==> Follows(h, q, it, t)
  {
    hide FollowsClosed, AllStates, Linked, IsConfig;
    var h' := Fitted(f, h);
    forall a | a in f0 ensures a in h' && f0[a] <= h'[a] {
      forall t | t in f0[a] ensures t in h'[a] {
        InitialInside(g, ss, links, f0, f, h, a, t);
      }
    }
    forall a | a in links ensures Satisfied(links, h', a) {
      assert RefAt(ss, links, f0, a);
      forall b | b in links[a] ensures b in h' && h'[a] <= h'[b] {
        assert LinkAt(ss, links, a, b) && RefAt(ss, links, f0, b);
        LinkStays(g, ss, a, b);
        forall t | t in h'[a] ensures t in h'[b] {
          LinkInside(g, ss, links, f0, f, h, a, b, t);
        }
      }
    }
    assert InsideAt(links, f0, f, h');
  }

  lemma LinkStays(g: Grammar, ss: seq<State>, a: ConfigRef, b: ConfigRef)
    requires AllStates(g, ss) && IsConfig(ss, a) && Linked(ss, a, b)
    ensures IsConfig(ss, b)
  {
    InState(g, ss, b.state, b.item);
    if (b.item, a) in ss[b.state].blinks {
      assert BlinkOk(g, ss, b.state, b.item, a);
      assert b.item in Elems(ss[b.state].basis);
      assert b.item in Elems(ss[b.state].configs);
    } else {
      assert FlinkAt(g, ss[a.state], a.item, b.item);
      assert b.item in Elems(ss[b.state].configs);
    }
  }

  /** Only the end of input follows a rule of the start symbol, if that symbol is on no right-hand side. */
  lemma OnlyEndFollowsStart(g: Grammar, ss: seq<State>, links: Links, f0: Family, f: Family, q: nat, it: Item, t: nat)
    requires Computed(g, ss, links, f0, f) && StartIsFresh(g)
    requires it.rule < |g.rules| && g.rules[it.rule].lhs == g.start && Follows(f, q, it, t)
    ensures t == 0
  {
    hide AllStates, Linked, IsConfig, StartIsFresh;
    var h: Family := map a | a in f :: if a.item.rule < |g.rules| && g.rules[a.item.rule].lhs == g.start then {0} else Tokens(f);
    forall a | a in f0 ensures f0[a] <= h[a] {
      if a.item.rule < |g.rules| && g.rules[a.item.rule].lhs == g.start {
        StartUncalled(g, ss, links, f0, f, a);
      } else {
        assert f0[a] <= f[a] <= Tokens(f);
      }
    }
    StartFollowed(g, ss, links, f0, f, it.rule);
    assert 0 in Tokens(f);
    forall a | a in links ensures Satisfied(links, h, a) {
      assert RefAt(ss, links, f0, a);
      forall b | b in links[a] ensures b in h && h[a] <= h[b] {
        assert LinkAt(ss, links, a, b) && RefAt(ss, links, f0, b);
        LinkStays(g, ss, a, b);
        LinkKeepsRule(g, ss, a, b);
      }
    }
    assert InsideAt(links, f0, f, h);
  }

  lemma LinkKeepsRule(g: Grammar, ss: seq<State>, a: ConfigRef, b: ConfigRef)
    requires AllStates(g, ss) && StartIsFresh(g) && IsConfig(ss, a) && Linked(ss, a, b)
    ensures b.item.rule == a.item.rule || (b.item.rule < |g.rules| && g.rules[b.item.rule].lhs != g.start)
  {
    InState(g, ss, a.state, a.item);
    if (b.item, a) in ss[b.state].blinks {
      assert BlinkOk(g, ss, b.state, b.item, a);
    } else {
      assert FlinkAt(g, ss[a.state], a.item, b.item);
      assert g.rules[a.item.rule] in g.rules && After(g, a.item) in g.rules[a.item.rule].rhs;
    }
  }

  lemma NobodyCallsStart(g: Grammar, src: Item, it: Item)
    requires StartIsFresh(g) && it.rule < |g.rules| && g.rules[it.rule].lhs == g.start
    ensures !Calls(g, src, it)
  {
    if Shiftable(g, src) {
      assert g.rules[src.rule] in g.rules && After(g, src) in g.rules[src.rule].rhs;
    }
  }

  lemma StartUncalled(g: Grammar, ss: seq<State>, links: Links, f0: Family, f: Family, a: ConfigRef)
    requires Computed(g, ss, links, f0, f) && StartIsFresh(g) && a in f0
    requires a.item.rule < |g.rules| && g.rules[a.item.rule].lhs == g.start
    ensures f0[a] <= {0}
  {
    hide AllStates, Computed, StartIsFresh;
    assert RefAt(ss, links, f0, a) && AllStates(g, ss) by {
      RefsOf(g, ss, links, f0, f, a);
    }
    InState(g, ss, a.state, a.item);
    forall t | t in f0[a] ensures t == 0 {
      assert FwsAt(g, ss[a.state], a.item, t);
      forall src ensures !Calls(g, src, a.item) {
        NobodyCallsStart(g, src, a.item);
      }
      SeedIsEnd(g, ss, a.state, t);
    }
  }

  lemma RefsOf(g: Grammar, ss: seq<State>, links: Links, f0: Family, f: Family, a: ConfigRef)
    requires Computed(g, ss, links, f0, f)
    ensures RefAt(ss, links, f0, a) && AllStates(g, ss)
  {
  }

  lemma SeedIsEnd(g: Grammar, ss: seq<State>, q: nat, t: nat)
    requires AllStates(g, ss) && q < |ss|
    ensures t in ss[q].seed ==> t == 0
  {
  }

  /** No family closed in the same way is smaller. */
  ghost predicate FollowsLeast(g: Grammar, a: Automaton, f: Follow) {
    forall h :: FollowsClosed(g, a, h) ==> Within(f, h)
  }

  ghost predicate Within(f: Follow, h: Follow) {
    forall q, it, t :: Follows(f, q, it, t) ==> Follows(h, q, it, t)
  }

  /** FindLinks and FindFollowSets together. */
  method ComputeFollow(g: Grammar, ss: seq<State>) returns (f: Family)
    requires AllStates(g, ss)
    ensures FollowsClosed(g, AutomatonOf(ss), f) && FollowsLeast(g, AutomatonOf(ss), f)
    ensures StartIsFresh(g) ==> forall q, it: Item, t ::
      it.rule < |g.rules| && g.rules[it.rule].lhs == g.start && Follows(f, q, it, t) ==> t == 0
  {
    hide AllStates, FollowsClosed;
    var refs := ListConfigs(ss);
    var links := FindLinks(g, ss, refs);
    FwsThere(g, ss);
    var f0 := map a | a in refs :: ss[a.state].fws[a.item];
    LinksThere(g, ss, links);
    f := FindFollowSets(refs, links, f0);
    assert Computed(g, ss, links, f0, f);
    FollowsAreClosed(g, ss, links, f0, f);
    hide Computed;
    forall h | FollowsClosed(g, AutomatonOf(ss), h) ensures Within(f, h) {
      FollowsAreLeast(g, ss, links, f0, f, h);
    }
    if StartIsFresh(g) {
      forall q: nat, it: Item, t: nat | it.rule < |g.rules| && g.rules[it.rule].lhs == g.start && Follows(f, q, it, t) ensures t == 0 {
        OnlyEndFollowsStart(g, ss, links, f0, f, q, it, t);
      }
    }
  }

  lemma FwsThere(g: Grammar, ss: seq<State>)
    requires AllStates(g, ss)
    ensures forall a :: IsConfig(ss, a) ==> a.item in ss[a.state].fws
  {
    forall a | IsConfig(ss, a) ensures a.item in ss[a.state].fws {
      InState(g, ss, a.state, a.item);
      assert FwsAt(g, ss[a.state], a.item, 0);
    }
  }

  lemma LinksThere(g: Grammar, ss: seq<State>, links: Links)
    requires AllStates(g, ss) && forall a :: a in links <==> IsConfig(ss, a)
    requires forall a, b :: a in links ==> (b in links[a] <==> Linked(ss, a, b))
    ensures forall a, b :: a in links && b in links[a] ==> IsConfig(ss, b)
  {
    forall a, b | a in links && b in links[a] ensures IsConfig(ss, b) {
      LinkStays(g, ss, a, b);
    }
  }
}
