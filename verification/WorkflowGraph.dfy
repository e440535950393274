/**
 The dependency graph of a node list, and what it means for a node to be
 plannable: longest dependency chains, cycles and missing dependencies.
 */
module WorkflowGraph {
  import opened WorkflowNodes
  import opened Sequences

  type Graph = map<string, Node>

  /** The node kept for each id: of several with one id, the last declared. */
  function ById(nodes: seq<Node>): (g: Graph)
    ensures forall id :: id in g ==> g[id].id == id && g[id] in nodes
    ensures forall n :: n in nodes ==> n.id in g
  {
    if nodes == [] then map[]
    else
      var last := nodes[|nodes| - 1];
      ById(nodes[..|nodes| - 1])[last.id := last]
  }

  /** The ids, each once, in order of first declaration. */
  function Order(nodes: seq<Node>): (ids: seq<string>)
    ensures Distinct(ids)
    ensures forall id :: id in ids <==> id in ById(nodes)
  {
    if nodes == [] then []
    else
      var ids := Order(nodes[..|nodes| - 1]);
      var id := nodes[|nodes| - 1].id;
      if id in ids then ids else ids + [id]
  }

  ghost predicate Edge(g: Graph, dep: string, id: string) {
    id in g && dep in g[id].dependsOn
  }

  /** A dependency chain: each member is a dependency of the next. */
  ghost predicate IsChain(g: Graph, p: seq<string>) {
    && p != []
    && forall i, j :: 0 <= i < j < |p| && j == i + 1 ==> Edge(g, p[i], p[j])
  }

  ghost predicate ChainTo(g: Graph, p: seq<string>, id: string) {
    IsChain(g, p) && p[|p| - 1] == id
  }

  /** The longest dependency chain that ends at `id` has `n` links. */
  ghost predicate IsDepth(g: Graph, id: string, n: nat) {
    && (exists p :: ChainTo(g, p, id) && |p| == n + 1)
    && (forall p :: ChainTo(g, p, id) ==> |p| <= n + 1)
  }

  ghost predicate HasMissing(g: Graph) {
    exists dep, id :: Edge(g, dep, id) && dep !in g
  }

  ghost predicate HasCycle(g: Graph) {
    exists p :: IsChain(g, p) && |p| > 1 && p[0] == p[|p| - 1]
  }

  ghost predicate Unsatisfiable(g: Graph) {
    HasMissing(g) || HasCycle(g)
  }

  /** Some chain to `id` starts outside the graph or meets a node twice. */
  ghost predicate Stuck(g: Graph, id: string) {
    exists p :: ChainTo(g, p, id) && (p[0] !in g || !Distinct(p))
  }

  ghost predicate Forced(g: Graph, rank: map<string, nat>, id: string) {
    id in rank && exists dep :: Edge(g, dep, id) && dep in rank && rank[dep] + 1 == rank[id]
  }

  /** A closed assignment of ranks in which every positive rank is forced by a dependency. */
  ghost predicate Ranking(g: Graph, rank: map<string, nat>) {
    && rank.Keys <= g.Keys
    && (forall dep, id {:trigger Edge(g, dep, id)} :: id in rank && Edge(g, dep, id) ==>
        dep in rank && rank[dep] < rank[id])
    && (forall id {:trigger Forced(g, rank, id)} :: id in rank && rank[id] > 0 ==> Forced(g, rank, id))
  }

  lemma ChainPrefix(g: Graph, p: seq<string>, k: nat)
    requires IsChain(g, p) && 0 < k <= |p|
    ensures ChainTo(g, p[..k], p[k - 1])
  {
  }

  lemma ChainSuffix(g: Graph, p: seq<string>, k: nat)
    requires IsChain(g, p) && k < |p|
    ensures ChainTo(g, p[k..], p[|p| - 1])
  {
  }

  lemma ChainExtend(g: Graph, p: seq<string>, dep: string, id: string)
    requires ChainTo(g, p, dep) && Edge(g, dep, id)
    ensures ChainTo(g, p + [id], id)
  {
  }

  /** Ranks rise along a chain, so a ranked node is reached only through distinct ranked nodes. */
  lemma {:induction false} RanksRise(g: Graph, rank: map<string, nat>, p: seq<string>)
    requires Ranking(g, rank) && IsChain(g, p) && p[|p| - 1] in rank
    ensures forall i :: 0 <= i < |p| ==> p[i] in rank
    ensures forall i, j :: 0 <= i < j < |p| ==> rank[p[i]] < rank[p[j]]
    ensures rank[p[|p| - 1]] >= |p| - 1
  {
    if |p| > 1 {
      var m := |p| - 1;
      assert Edge(g, p[m - 1], p[m]);
      ChainPrefix(g, p, m);
      RanksRise(g, rank, p[..m]);
      forall i | 0 <= i < |p|
        ensures p[i] in rank
        ensures i < m ==> rank[p[i]] < rank[p[m]]
      {
        if i < m {
          assert p[..m][i] == p[i];
        }
      }
      forall i, j | 0 <= i < j < |p|
        ensures rank[p[i]] < rank[p[j]]
      {
        if j < m {
          assert p[..m][i] == p[i] && p[..m][j] == p[j];
        }
      }
    }
  }

  lemma {:induction false} RankWitness(g: Graph, rank: map<string, nat>, id: string) returns (p: seq<string>)
    requires Ranking(g, rank) && id in rank
    ensures ChainTo(g, p, id) && |p| == rank[id] + 1
    decreases rank[id]
  {
    if rank[id] == 0 {
      p := [id];
    } else {
      assert Forced(g, rank, id);
      var dep :| Edge(g, dep, id) && dep in rank && rank[dep] == rank[id] - 1;
      var q := RankWitness(g, rank, dep);
      ChainExtend(g, q, dep, id);
      p := q + [id];
    }
  }

  /** A rank is exactly the length of the longest dependency chain. */
  lemma RankIsDepth(g: Graph, rank: map<string, nat>, id: string)
    requires Ranking(g, rank) && id in rank
    ensures IsDepth(g, id, rank[id])
    ensures !Stuck(g, id)
  {
    var w := RankWitness(g, rank, id);
    forall p | ChainTo(g, p, id)
      ensures |p| <= rank[id] + 1
      ensures p[0] in g && Distinct(p)
    {
      RanksRise(g, rank, p);
    }
  }

  lemma DepthUnique(g: Graph, id: string, m: nat, n: nat)
    requires IsDepth(g, id, m) && IsDepth(g, id, n)
    ensures m == n
  {
    var p :| ChainTo(g, p, id) && |p| == m + 1;
    var q :| ChainTo(g, q, id) && |q| == n + 1;
  }

  /** If every node of a set waits for one outside the graph or in the set, chains go back forever. */
  lemma {:induction false} BlockedChain(g: Graph, blocked: set<string>, id: string, n: nat) returns (p: seq<string>)
    requires blocked <= g.Keys && id in blocked
    requires forall b :: b in blocked ==> exists dep :: Edge(g, dep, b) && (dep in blocked || dep !in g)
    ensures ChainTo(g, p, id)
    ensures p[0] !in g || (|p| == n + 1 && forall x :: x in p ==> x in blocked)
    decreases n
  {
    if n == 0 {
      p := [id];
    } else {
      var dep :| Edge(g, dep, id) && (dep in blocked || dep !in g);
      if dep !in g {
        p := [dep, id];
      } else {
        var q := BlockedChain(g, blocked, dep, n - 1);
        ChainExtend(g, q, dep, id);
        p := q + [id];
        assert p[0] == q[0];
      }
    }
  }

  lemma BlockedIsStuck(g: Graph, blocked: set<string>, id: string)
    requires blocked <= g.Keys && id in blocked
    requires forall b :: b in blocked ==> exists dep :: Edge(g, dep, b) && (dep in blocked || dep !in g)
    ensures Stuck(g, id)
  {
    var p := BlockedChain(g, blocked, id, |blocked|);
    if p[0] in g && Distinct(p) {
      Pigeonhole(p, blocked);
    }
  }

  lemma MissingIsStuck(g: Graph, dep: string, id: string)
    requires Edge(g, dep, id) && dep !in g
    ensures Stuck(g, id)
  {
    assert ChainTo(g, [dep, id], id);
  }

  lemma CycleIsStuck(g: Graph, p: seq<string>)
    requires IsChain(g, p) && |p| > 1 && p[0] == p[|p| - 1]
    ensures p[0] in g && Stuck(g, p[0])
  {
    assert Edge(g, p[|p| - 2], p[|p| - 1]);
    assert ChainTo(g, p, p[0]) && !Distinct(p);
  }

  lemma StuckIsUnsatisfiable(g: Graph, id: string)
    requires id in g && Stuck(g, id)
    ensures Unsatisfiable(g)
  {
    var p :| ChainTo(g, p, id) && (p[0] !in g || !Distinct(p));
    if p[0] !in g {
      assert Edge(g, p[0], p[1]);
    } else {
      var i, j :| 0 <= i < j < |p| && p[i] == p[j];
      ChainPrefix(g, p, j + 1);
      ChainSuffix(g, p[..j + 1], i);
    }
  }

  ghost predicate AnyStuck(g: Graph) {
    exists id :: id in g && Stuck(g, id)
  }

  /** A stuck node exists exactly when a dependency is missing or the graph has a cycle. */
  lemma StuckIffUnsatisfiable(g: Graph)
    ensures Unsatisfiable(g) <==> AnyStuck(g)
  {
    if HasMissing(g) {
      var dep, id :| Edge(g, dep, id) && dep !in g;
      MissingIsStuck(g, dep, id);
    } else if HasCycle(g) {
      var p :| IsChain(g, p) && |p| > 1 && p[0] == p[|p| - 1];
      CycleIsStuck(g, p);
    } else if AnyStuck(g) {
      var id :| id in g && Stuck(g, id);
      StuckIsUnsatisfiable(g, id);
    }
  }
}
