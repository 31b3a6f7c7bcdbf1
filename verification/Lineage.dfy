/** The cycle-guarded walk from a variant's head to its base
    (apps/web/src/sceneVariants.ts). */
module Lineage {
  import opened Wrappers

  datatype Revision = Revision(id: string, parent: Option<string>)

  /** new Map(rows by id): a later row with the same id wins. */
  function ById(revisions: seq<Revision>): (m: map<string, Revision>)
    ensures forall id | id in m :: m[id].id == id
  {
    if revisions == [] then map[]
    else
      var last := revisions[|revisions| - 1];
      ById(revisions[..|revisions| - 1])[last.id := last]
  }

  lemma {:induction false} LastRowWins(revisions: seq<Revision>, i: nat)
    requires i < |revisions| && forall j | i < j < |revisions| :: revisions[j].id != revisions[i].id
    ensures revisions[i].id in ById(revisions) && ById(revisions)[revisions[i].id] == revisions[i]
  {
    var n := |revisions| - 1;
    if i < n {
      var earlier := revisions[..n];
      assert earlier[i] == revisions[i];
      assert forall j | i < j < n :: earlier[j] == revisions[j];
      LastRowWins(earlier, i);
    }
  }

  /** The id names a row the walk can step onto; the empty string counts as no id. */
  predicate Reachable(rows: map<string, Revision>, id: string) {
    id != "" && id in rows
  }

  ghost predicate DistinctIds(chain: seq<Revision>) {
    forall i, j | 0 <= i < j < |chain| :: chain[i].id != chain[j].id
  }

  ghost predicate Visited(chain: seq<Revision>, id: string) {
    exists i :: 0 <= i < |chain| && chain[i].id == id
  }

  /** Entry i is the parent of the one before it, which was not yet the base. */
  ghost predicate Links(chain: seq<Revision>, i: int, base: string) {
    0 < i < |chain| && chain[i - 1].parent == Some(chain[i].id) && chain[i - 1].id != base
  }

  /** A chain of present rows along parent links, without repetition, that has not passed base. */
  ghost predicate IsWalk(chain: seq<Revision>, head: string, base: string, rows: map<string, Revision>) {
    && (chain != [] ==> chain[0].id == head)
    && (forall i | 0 <= i < |chain| :: Reachable(rows, chain[i].id) && rows[chain[i].id] == chain[i])
    && (forall i | 0 < i < |chain| :: Links(chain, i, base))
    && DistinctIds(chain)
  }

  /** Why a walk ends: base reached, no parent, a dangling parent, or a cycle. */
  ghost predicate IsOver(chain: seq<Revision>, head: string, base: string, rows: map<string, Revision>) {
    if chain == [] then !Reachable(rows, head)
    else
      var last := chain[|chain| - 1];
      last.id == base || last.parent.None? || !Reachable(rows, last.parent.value) || Visited(chain, last.parent.value)
  }

  /** The walk from head, as far as it goes. */
  ghost predicate IsLineage(chain: seq<Revision>, head: string, base: string, rows: map<string, Revision>) {
    IsWalk(chain, head, base, rows) && IsOver(chain, head, base, rows)
  }

  /** lineageRevisions: terminates on any parent graph, cyclic or dangling. */
  method LineageRevisions(head: string, base: string, revisions: seq<Revision>) returns (chain: seq<Revision>)
    ensures IsLineage(chain, head, base, ById(revisions))
    ensures |chain| <= |ById(revisions)|
  {
    var rows := ById(revisions);
    chain := [];
    var visited: set<string> := {};
    var cursor: Option<string> := Some(head);
    hide IsWalk;
    hide DistinctIds;
    hide Visited;
    EmptyWalk(head, base, rows);
    while cursor.Some? && cursor.value != "" && cursor.value !in visited
      invariant IsWalk(chain, head, base, rows)
      invariant forall id :: id in visited <==> Visited(chain, id)
      invariant chain == [] ==> cursor == Some(head)
      invariant chain != [] ==> cursor == chain[|chain| - 1].parent && chain[|chain| - 1].id != base
      decreases rows.Keys - visited
    {
      var id := cursor.value;
      visited := visited + {id};
      if id !in rows {
        break;
      }
      var node := rows[id];
      ExtendWalk(chain, node, head, base, rows);
      chain := chain + [node];
      if id == base {
        break;
      }
      cursor := node.parent;
    }
    WalkFits(chain, head, base, rows);
  }

  lemma EmptyWalk(head: string, base: string, rows: map<string, Revision>)
    ensures IsWalk([], head, base, rows)
    ensures forall id :: !Visited([], id)
  {
  }

  lemma ExtendWalk(chain: seq<Revision>, node: Revision, head: string, base: string, rows: map<string, Revision>)
    requires IsWalk(chain, head, base, rows) && !Visited(chain, node.id)
    requires Reachable(rows, node.id) && rows[node.id] == node
    requires if chain == [] then node.id == head
             else chain[|chain| - 1].parent == Some(node.id) && chain[|chain| - 1].id != base
    ensures IsWalk(chain + [node], head, base, rows)
    ensures forall id :: Visited(chain + [node], id) <==> Visited(chain, id) || id == node.id
  {
    var longer := chain + [node];
    forall i | 0 < i < |longer| ensures Links(longer, i, base) {
      assert i < |chain| ==> Links(chain, i, base);
    }
    forall id ensures Visited(longer, id) <==> Visited(chain, id) || id == node.id {
      if Visited(chain, id) {
        var i :| 0 <= i < |chain| && chain[i].id == id;
        assert longer[i].id == id;
      }
      assert longer[|chain|] == node;
    }
  }

  lemma WalkFits(chain: seq<Revision>, head: string, base: string, rows: map<string, Revision>)
    requires IsWalk(chain, head, base, rows)
    ensures |chain| <= |rows|
  {
    DistinctIdsFit(chain, rows);
  }

  lemma {:induction false} DistinctIdsFit(chain: seq<Revision>, rows: map<string, Revision>)
    requires DistinctIds(chain) && forall i | 0 <= i < |chain| :: chain[i].id in rows
    ensures |chain| <= |rows|
  {
    if chain != [] {
      var n := |chain| - 1;
      var last := chain[n].id;
      var fewer := rows - {last};
      assert forall i | 0 <= i < n :: chain[..n][i].id in fewer;
      DistinctIdsFit(chain[..n], fewer);
      assert fewer.Keys == rows.Keys - {last};
      assert |fewer.Keys| == |rows.Keys| - 1;
    }
  }

  // ---------------------------------------------------------------------
  // The walk is determined, and is the path when there is one
  // ---------------------------------------------------------------------

  lemma {:induction false} WalksAgree(
      a: seq<Revision>, b: seq<Revision>, head: string, base: string, rows: map<string, Revision>, k: nat)
    requires IsWalk(a, head, base, rows) && IsWalk(b, head, base, rows) && k < |a| && k < |b|
    ensures a[k] == b[k]
  {
    if k > 0 {
      WalksAgree(a, b, head, base, rows, k - 1);
      assert Links(a, k, base) && Links(b, k, base);
    }
  }

  /** No proper beginning of a walk is a place where the walk could have ended. */
  lemma WalkGoesOn(b: seq<Revision>, n: nat, head: string, base: string, rows: map<string, Revision>)
    requires IsWalk(b, head, base, rows) && n < |b|
    ensures !IsOver(b[..n], head, base, rows)
  {
    assert Reachable(rows, b[n].id);
    assert n > 0 ==> Links(b, n, base);
  }

  lemma NoLongerWalk(a: seq<Revision>, b: seq<Revision>, head: string, base: string, rows: map<string, Revision>)
    requires IsLineage(a, head, base, rows) && IsWalk(b, head, base, rows)
    ensures |b| <= |a|
  {
    if |a| < |b| {
      forall k | 0 <= k < |a| ensures a[k] == b[..|a|][k] {
        WalksAgree(a, b, head, base, rows, k);
      }
      WalkGoesOn(b, |a|, head, base, rows);
    }
  }

  /** There is only one lineage, and every walk is a part of it. */
  lemma LineageUnique(a: seq<Revision>, b: seq<Revision>, head: string, base: string, rows: map<string, Revision>)
    requires IsLineage(a, head, base, rows) && IsLineage(b, head, base, rows)
    ensures a == b
  {
    NoLongerWalk(a, b, head, base, rows);
    NoLongerWalk(b, a, head, base, rows);
    forall k | 0 <= k < |a| ensures a[k] == b[k] {
      WalksAgree(a, b, head, base, rows, k);
    }
  }

  /** A path from head up to the first row named base, every row present. */
  ghost predicate IsPath(p: seq<Revision>, head: string, base: string, rows: map<string, Revision>) {
    && p != [] && p[0].id == head && p[|p| - 1].id == base
    && (forall i | 0 <= i < |p| :: Reachable(rows, p[i].id) && rows[p[i].id] == p[i])
    && (forall i | 0 < i < |p| :: Links(p, i, base))
  }

  /** From equal rows a path continues equally. */
  lemma {:induction false} PathRepeats(p: seq<Revision>, head: string, base: string, rows: map<string, Revision>, i: nat, j: nat, t: nat)
    requires IsPath(p, head, base, rows) && i < j && j + t < |p| && p[i].id == p[j].id
    ensures p[i + t] == p[j + t] && p[i + t].id != base
  {
    assert Links(p, i + t + 1, base);
    if t > 0 {
      PathRepeats(p, head, base, rows, i, j, t - 1);
      assert Links(p, i + t, base) && Links(p, j + t, base);
    }
  }

  /** A path to base never repeats an id: otherwise it would have met base before. */
  lemma PathIsLineage(p: seq<Revision>, head: string, base: string, rows: map<string, Revision>)
    requires IsPath(p, head, base, rows)
    ensures IsLineage(p, head, base, rows)
  {
    forall i, j | 0 <= i < j < |p| ensures p[i].id != p[j].id {
      if p[i].id == p[j].id {
        PathRepeats(p, head, base, rows, i, j, |p| - 1 - j);
      }
    }
  }

  /** When base is an ancestor of head with every row present, the lineage is exactly that path;
      and it ends at base only then. */
  lemma LineageIsThePath(chain: seq<Revision>, head: string, base: string, rows: map<string, Revision>)
    requires IsLineage(chain, head, base, rows)
    ensures forall p: seq<Revision> | IsPath(p, head, base, rows) :: chain == p
    ensures chain != [] && chain[|chain| - 1].id == base ==> IsPath(chain, head, base, rows)
  {
    forall p: seq<Revision> | IsPath(p, head, base, rows) ensures chain == p {
      PathIsLineage(p, head, base, rows);
      LineageUnique(chain, p, head, base, rows);
    }
  }
}
