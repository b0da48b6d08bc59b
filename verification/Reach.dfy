/** The splitter's loop check. */
module Reach {
  // From codec/src/flow_codec.c: marking the stages that the output source reaches, until nothing changes.

  datatype Edge = Edge(from: nat, to: nat)

  ghost predicate IsPath(edges: seq<Edge>, path: seq<nat>) {
    && path != []
    && forall i :: 0 < i < |path| ==> Edge(path[i - 1], path[i]) in edges
  }

  /** A path of zero or more edges. */
  ghost predicate Leads(edges: seq<Edge>, source: nat, target: nat) {
    exists path :: IsPath(edges, path) && path[0] == source && path[|path| - 1] == target
  }

  ghost predicate WellFormed(edges: seq<Edge>, stages: nat) {
    forall i :: 0 <= i < |edges| ==> edges[i].from < stages && edges[i].to < stages
  }

  ghost predicate Satisfied(e: Edge, marks: seq<bool>) {
    e.from < |marks| && e.to < |marks| && (marks[e.from] ==> marks[e.to])
  }

  ghost predicate OnlyReached(edges: seq<Edge>, source: nat, marks: seq<bool>) {
    forall s: nat :: s < |marks| && marks[s] ==> Leads(edges, source, s)
  }

  lemma LeadsOn(edges: seq<Edge>, source: nat, e: Edge)
    requires Leads(edges, source, e.from) && e in edges
    ensures Leads(edges, source, e.to)
  {
    var path :| IsPath(edges, path) && path[0] == source && path[|path| - 1] == e.from;
    var longer := path + [e.to];
    assert IsPath(edges, longer);
    assert longer[0] == source && longer[|longer| - 1] == e.to;
  }

  lemma LeadsNowhere(edges: seq<Edge>, source: nat)
    ensures Leads(edges, source, source)
  {
    assert IsPath(edges, [source]);
    assert [source][0] == source;
  }

  /** Marks that no edge can extend hold everything on a path from a marked stage. */
  lemma {:induction false} MarksFollow(edges: seq<Edge>, marks: seq<bool>, path: seq<nat>, k: nat)
    requires IsPath(edges, path) && k < |path| && path[0] < |marks| && marks[path[0]]
    requires forall i :: 0 <= i < |edges| ==> Satisfied(edges[i], marks)
    ensures path[k] < |marks| && marks[path[k]]
    decreases k
  {
    if k > 0 {
      MarksFollow(edges, marks, path, k - 1);
      var i :| 0 <= i < |edges| && edges[i] == Edge(path[k - 1], path[k]);
      assert Satisfied(edges[i], marks);
    }
  }

  function Unmarked(marks: seq<bool>): nat {
    if marks == [] then 0 else Unmarked(marks[..|marks| - 1]) + if marks[|marks| - 1] then 0 else 1
  }

  lemma {:induction false} OneFewer(marks: seq<bool>, i: nat)
    requires i < |marks| && !marks[i]
    ensures Unmarked(marks[i := true]) == Unmarked(marks) - 1
    decreases |marks|
  {
    var n := |marks| - 1;
    if i < n {
      OneFewer(marks[..n], i);
      assert marks[i := true][..n] == marks[..n][i := true];
    } else {
      assert marks[i := true][..n] == marks[..n];
    }
  }

  /** One pass over the edges. */
  method Pass(edges: seq<Edge>, ghost source: nat, marks: array<bool>) returns (changed: bool)
    requires WellFormed(edges, marks.Length) && OnlyReached(edges, source, marks[..])
    modifies marks
    ensures OnlyReached(edges, source, marks[..])
    ensures forall s :: 0 <= s < marks.Length && old(marks[s]) ==> marks[s]
    ensures changed ==> Unmarked(marks[..]) < Unmarked(old(marks[..]))
    ensures !changed ==> marks[..] == old(marks[..]) && forall i :: 0 <= i < |edges| ==> Satisfied(edges[i], marks[..])
  {
    changed := false;
    for i := 0 to |edges|
      invariant OnlyReached(edges, source, marks[..])
      invariant forall s :: 0 <= s < marks.Length && old(marks[s]) ==> marks[s]
      invariant changed ==> Unmarked(marks[..]) < Unmarked(old(marks[..]))
      invariant !changed ==> marks[..] == old(marks[..]) && forall k :: 0 <= k < i ==> Satisfied(edges[k], marks[..])
    {
      var e := edges[i];
      if marks[e.from] && !marks[e.to] {
        LeadsOn(edges, source, e);
        OneFewer(marks[..], e.to);
        ghost var before := marks[..];
        marks[e.to] := true;
        assert marks[..] == before[e.to := true];
        changed := true;
      }
    }
  }

  /** True exactly if a path of edges leads from the source to the target. */
  method SourceReachesStage(stages: nat, edges: seq<Edge>, source: nat, target: nat) returns (reaches: bool)
    requires WellFormed(edges, stages) && source < stages && target < stages
    ensures reaches <==> Leads(edges, source, target)
  {
    var marks := new bool[stages](_ => false);
    marks[source] := true;
    LeadsNowhere(edges, source);
    var changed := true;
    while changed
      invariant marks[source] && OnlyReached(edges, source, marks[..])
      invariant !changed ==> forall i :: 0 <= i < |edges| ==> Satisfied(edges[i], marks[..])
      decreases Unmarked(marks[..]), if changed then 1 else 0
    {
      changed := Pass(edges, source, marks);
    }
    reaches := marks[target];
    if path :| IsPath(edges, path) && path[0] == source && path[|path| - 1] == target {
      MarksFollow(edges, marks[..], path, |path| - 1);
    }
  }
}
