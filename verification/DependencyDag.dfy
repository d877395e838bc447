/** The depth-first check that hash dependencies contain no cycle. */
module DependencyDag {
  import opened Common

  /** The dependencies of each hash, in the order in which they are visited. */
  type Graph = map<string, seq<string>>

  predicate Edge(g: Graph, a: string, b: string) {
    a in g && b in g && b in g[a]
  }

  /** A walk along dependencies that are themselves keys. */
  predicate Walk(g: Graph, p: seq<string>) {
    && p != []
    && (forall i | 0 <= i < |p| :: p[i] in g)
    && forall i | 0 <= i < |p| - 1 :: Edge(g, p[i], p[i + 1])
  }

  predicate Cycle(g: Graph, p: seq<string>) {
    Walk(g, p) && |p| >= 2 && p[0] == p[|p| - 1]
  }

  ghost predicate HasCycle(g: Graph) {
    exists p :: Cycle(g, p)
  }

  /** Every entry comes after all of its dependencies that are keys. */
  predicate DependenciesFirst(g: Graph, order: seq<string>) {
    forall i | 0 <= i < |order| :: order[i] in g && forall d | d in g[order[i]] && d in g :: d in order[..i]
  }

  function ToSet(s: seq<string>): set<string> {
    set x | x in s
  }

  /** The check's mutable state. `ok` turns false where the source raises. */
  class DagCheck {
    const g: Graph
    var visiting: set<string>
    var visited: set<string>
    var order: seq<string>

    constructor (g: Graph)
      ensures this.g == g && visiting == {} && Ordered() && visited == {}
    {
      this.g := g;
      visiting, visited, order := {}, {}, [];
    }

    predicate Ordered()
      reads this
    {
      && NoRepeats(order) && ToSet(order) == visited && visited !! visiting
      && DependenciesFirst(g, order) && visiting <= g.Keys
    }

    /** `path` is the chain of calls that led here. */
    method Visit(node: string, ghost path: seq<string>) returns (ok: bool)
      requires Ordered() && node in g && visiting == ToSet(path) && Walk(g, path + [node])
      modifies this
      ensures ok ==> Ordered() && visiting == old(visiting) && old(visited) + {node} <= visited
      ensures !ok ==> HasCycle(g)
      decreases g.Keys - visiting
    {
      if node in visited {
        return true;
      }
      if node in visiting {
        ghost var i :| 0 <= i < |path| && path[i] == node;
        LoopFound(g, path, node, i);
        return false;
      }
      visiting := visiting + {node};
      for n := 0 to |g[node]|
        invariant Ordered() && visiting == old(visiting) + {node} && old(visited) <= visited
        invariant forall d | d in g[node][..n] && d in g :: d in visited
      {
        var dependency := g[node][n];
        assert g[node][..n + 1] == g[node][..n] + [dependency];
        if dependency in g {
          assert Edge(g, node, dependency);
          LongerWalk(g, path + [node], dependency);
          assert ToSet(path + [node]) == visiting;
          var went := Visit(dependency, path + [node]);
          if !went {
            return false;
          }
        }
      }
      assert g[node][..|g[node]|] == g[node];
      visiting := visiting - {node};
      AppendOrdered(g, order, node);
      visited := visited + {node};
      order := order + [node];
      return true;
    }
  }

  lemma LoopFound(g: Graph, path: seq<string>, node: string, i: nat)
    requires Walk(g, path + [node]) && i < |path| && path[i] == node
    ensures HasCycle(g)
  {
    var whole := path + [node];
    var loop := whole[i..];
    forall k | 0 <= k < |loop| - 1 ensures Edge(g, loop[k], loop[k + 1]) {
      assert Edge(g, whole[i + k], whole[i + k + 1]);
    }
    assert Cycle(g, loop);
  }

  lemma LongerWalk(g: Graph, p: seq<string>, next: string)
    requires Walk(g, p) && Edge(g, p[|p| - 1], next)
    ensures Walk(g, p + [next])
  {
  }

  lemma AppendOrdered(g: Graph, order: seq<string>, node: string)
    requires NoRepeats(order) && DependenciesFirst(g, order) && node in g && node !in order
    requires forall d | d in g[node] && d in g :: d in order
    ensures NoRepeats(order + [node]) && DependenciesFirst(g, order + [node])
    ensures ToSet(order + [node]) == ToSet(order) + {node}
  {
    var longer := order + [node];
    forall i | 0 <= i < |longer| ensures longer[i] in g && forall d | d in g[longer[i]] && d in g :: d in longer[..i] {
      if i < |order| {
        assert longer[..i] == order[..i] && longer[i] == order[i];
      } else {
        assert longer[..i] == order;
      }
    }
  }

  /** Following dependencies from the entry at `i` only leads to earlier entries. */
  lemma {:induction false} WalksGoBack(g: Graph, order: seq<string>, i: nat, p: seq<string>)
    requires DependenciesFirst(g, order) && i < |order| && Walk(g, p) && |p| >= 2 && p[0] == order[i]
    ensures p[|p| - 1] in order[..i]
    decreases |p|
  {
    var last := |p| - 1;
    assert Edge(g, p[last - 1], p[last]);
    if last <= 1 {
    } else {
      WalksGoBack(g, order, i, p[..last]);
      assert p[last - 1] in order[..i];
      var k :| 0 <= k < i && order[k] == p[last - 1];
      assert p[last] in order[..k];
    }
  }

  lemma NoCycleAt(g: Graph, order: seq<string>, p: seq<string>)
    requires NoRepeats(order) && DependenciesFirst(g, order) && ToSet(order) == g.Keys
    ensures !Cycle(g, p)
  {
    if Cycle(g, p) {
      assert p[0] in ToSet(order);
      var i :| 0 <= i < |order| && order[i] == p[0];
      WalksGoBack(g, order, i, p);
    }
  }

  /** A complete order with dependencies first rules out every cycle. */
  lemma OrderedMeansAcyclic(g: Graph, order: seq<string>)
    requires NoRepeats(order) && DependenciesFirst(g, order) && ToSet(order) == g.Keys
    ensures !HasCycle(g)
  {
    forall p ensures !Cycle(g, p) {
      NoCycleAt(g, order, p);
    }
  }

  /** Succeeds exactly on graphs without a cycle, and then names every key once, dependencies first. */
  method ValidateDag(g: Graph, keys: seq<string>) returns (ok: bool, order: seq<string>)
    requires ToSet(keys) == g.Keys
    ensures ok <==> !HasCycle(g)
    ensures ok ==> NoRepeats(order) && ToSet(order) == g.Keys && DependenciesFirst(g, order)
  {
    var check := new DagCheck(g);
    for n := 0 to |keys|
      invariant fresh(check) && check.g == g && check.Ordered() && check.visiting == {}
      invariant ToSet(keys[..n]) <= check.visited
    {
      assert keys[n] in ToSet(keys);
      assert keys[..n + 1] == keys[..n] + [keys[n]];
      var went := check.Visit(keys[n], []);
      if !went {
        return false, [];
      }
    }
    assert keys[..|keys|] == keys;
    order := check.order;
    assert ToSet(order) <= g.Keys by {
      forall x | x in order ensures x in g {
        var i :| 0 <= i < |order| && order[i] == x;
      }
    }
    OrderedMeansAcyclic(g, order);
    return true, order;
  }

  // ---------- The dependencies of the reliable pipeline ----------

  const HASH_DEPENDENCIES: Graph :=
    map["context_digest" := ["read_set"],
        "candidate_digest" := ["context_digest"],
        "artifact_bundle_digest" := ["staged_targets"],
        "final_run_hash" := ["final_run_bytes"],
        "commit_marker_hash" := ["artifact_bundle_digest", "candidate_digest", "final_run_hash", "manifest_digest"],
        "publication_receipt_hash" := ["artifact_bundle_digest", "commit_marker_hash", "final_run_hash"],
        "delivery_attempt_receipt_hash" := ["delivery_attempt", "delivery_payload_hash", "publication_receipt_hash"]]

  /** How many layers of the pipeline a hash has below it. */
  function Layer(name: string): nat {
    if name == "delivery_attempt_receipt_hash" then 4
    else if name == "publication_receipt_hash" then 3
    else if name == "commit_marker_hash" then 2
    else if name == "candidate_digest" then 1
    else 0
  }

  lemma {:induction false} WalksDescend(p: seq<string>)
    requires Walk(HASH_DEPENDENCIES, p) && |p| >= 2
    ensures Layer(p[|p| - 1]) < Layer(p[0])
    decreases |p|
  {
    EdgeDescends(p[|p| - 2], p[|p| - 1]);
    if |p| <= 2 {
    } else {
      WalksDescend(p[..|p| - 1]);
    }
  }

  lemma EdgeDescends(a: string, b: string)
    requires Edge(HASH_DEPENDENCIES, a, b)
    ensures Layer(b) < Layer(a)
  {
  }

  lemma ReliablePipelineIsAcyclic()
    ensures !HasCycle(HASH_DEPENDENCIES)
  {
    forall p | Cycle(HASH_DEPENDENCIES, p) ensures false {
      WalksDescend(p);
    }
  }
}
