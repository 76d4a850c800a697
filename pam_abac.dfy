/** pam-abac.py: the attribute-based model with injected ground-truth chains
    (lines 36-57), the same three-hop detector without its counter (lines
    61-76), and the comparison of detected and ground-truth users (lines 93-98). */
module PamAbac {
  import opened Domain
  import opened DiGraphs
  import opened Abac
  import opened AbacDetector
  import opened Scoring

  // ---------------------------------------------------------------------------
  // Ground-truth injection
  // ---------------------------------------------------------------------------

  /** `max(1, num_users // 20)`: the number of injected chains. */
  function GroundTruthCount(numUsers: nat): (n: nat)
    ensures n >= 1
  {
    if numUsers / 20 < 1 then 1 else numUsers / 20
  }

  /** The chain recorded for injection `i`: `(Role_GT_A_i, Resource_GT_i, Role_GT_B_i)`. */
  function GtChain(i: nat): Chain
  {
    Chain(RoleGtA(i), ResourceGt(i), RoleGtB(i))
  }

  /** The node map after the injections for `choices` (lines 48-50). */
  function GtTypes(base: map<Node, NodeType>, choices: seq<nat>): map<Node, NodeType>
  {
    if choices == [] then base
    else
      var i := |choices| - 1;
      GtTypes(base, choices[..i])[RoleGtA(i) := RoleNode([PassRole])]
                                 [RoleGtB(i) := RoleNode([RunInstances])]
                                 [ResourceGt(i) := ResourceNode(IAMRole)]
  }

  /** The three edges of injection `i` for the chosen user `c` (lines 52-54). */
  function ChainEdges(i: nat, c: nat): set<(Node, Node)>
  {
    {(User(c), RoleGtA(i)), (RoleGtA(i), ResourceGt(i)), (ResourceGt(i), RoleGtB(i))}
  }

  function GtEdges(choices: seq<nat>): set<(Node, Node)>
  {
    if choices == [] then {}
    else GtEdges(choices[..|choices| - 1]) + ChainEdges(|choices| - 1, choices[|choices| - 1])
  }

  /** `ground_truth_paths` after the injections: a later choice of the same user overwrites (line 57). */
  function GtPaths(choices: seq<nat>): map<Node, Chain>
  {
    if choices == [] then map[]
    else GtPaths(choices[..|choices| - 1])[User(choices[|choices| - 1]) := GtChain(|choices| - 1)]
  }

  function GtRoles(roles: map<Node, seq<Permission>>, choices: seq<nat>): map<Node, seq<Permission>>
  {
    if choices == [] then roles
    else
      var i := |choices| - 1;
      GtRoles(roles, choices[..i])[RoleGtA(i) := [PassRole]][RoleGtB(i) := [RunInstances]]
  }

  function GtResources(resources: map<Node, ResourceKind>, choices: seq<nat>): map<Node, ResourceKind>
  {
    if choices == [] then resources
    else GtResources(resources, choices[..|choices| - 1])[ResourceGt(|choices| - 1) := IAMRole]
  }

  /** A ground-truth node of an injection numbered below `n`. */
  predicate GtNode(v: Node, n: nat)
  {
    (v.RoleGtA? || v.RoleGtB? || v.ResourceGt?) && v.i < n
  }

  /** Lines 37-57. `choices[i]` is the `random.choice` of injection `i`. */
  method InjectGroundTruth(G: Graph, roles: map<Node, seq<Permission>>, resources: map<Node, ResourceKind>,
                           numUsers: nat, choices: seq<nat>)
    returns (roles': map<Node, seq<Permission>>, resources': map<Node, ResourceKind>, gt: map<Node, Chain>)
    requires G.Valid() && G.nodes == G.attrs.Keys
    requires |choices| == GroundTruthCount(numUsers)
    requires forall i :: 0 <= i < |choices| ==> choices[i] < numUsers
    requires forall i :: 0 <= i < numUsers ==> User(i) in G.attrs
    modifies G
    ensures G.Valid() && G.nodes == G.attrs.Keys
    ensures G.attrs == GtTypes(old(G.attrs), choices)
    ensures G.edges == old(G.edges) + GtEdges(choices)
    ensures roles' == GtRoles(roles, choices)
    ensures resources' == GtResources(resources, choices)
    ensures gt == GtPaths(choices)
  {
    roles', resources', gt := roles, resources, map[];
    ghost var base, baseEdges := G.attrs, G.edges;
    for i := 0 to |choices|
      invariant G.Valid() && G.nodes == G.attrs.Keys
      invariant forall k :: 0 <= k < numUsers ==> User(k) in G.attrs
      invariant G.attrs == GtTypes(base, choices[..i])
      invariant G.edges == baseEdges + GtEdges(choices[..i])
      invariant roles' == GtRoles(roles, choices[..i])
      invariant resources' == GtResources(resources, choices[..i])
      invariant gt == GtPaths(choices[..i])
    {
      assert choices[..i + 1] == choices[..i] + [choices[i]];
      roles', resources', gt := InjectOne(G, base, baseEdges, roles, resources, choices[..i], i, choices[i],
                                          roles', resources', gt);
    }
    assert choices[..|choices|] == choices;
  }

  /** One turn of the injection loop (lines 38-57) for the chosen user `c`,
      stated against the recursive definitions of the turns so far. */
  method InjectOne(G: Graph, ghost base: map<Node, NodeType>, ghost baseEdges: set<(Node, Node)>,
                   ghost roles0: map<Node, seq<Permission>>, ghost resources0: map<Node, ResourceKind>,
                   ghost prev: seq<nat>, i: nat, c: nat,
                   roles: map<Node, seq<Permission>>, resources: map<Node, ResourceKind>, gt: map<Node, Chain>)
    returns (roles': map<Node, seq<Permission>>, resources': map<Node, ResourceKind>, gt': map<Node, Chain>)
    requires i == |prev| && G.Valid() && G.nodes == G.attrs.Keys && User(c) in G.attrs
    requires G.attrs == GtTypes(base, prev) && G.edges == baseEdges + GtEdges(prev)
    requires roles == GtRoles(roles0, prev) && resources == GtResources(resources0, prev) && gt == GtPaths(prev)
    modifies G
    ensures G.Valid() && G.nodes == G.attrs.Keys && old(G.attrs).Keys <= G.attrs.Keys
    ensures G.attrs == GtTypes(base, prev + [c]) && G.edges == baseEdges + GtEdges(prev + [c])
    ensures roles' == GtRoles(roles0, prev + [c]) && resources' == GtResources(resources0, prev + [c])
    ensures gt' == GtPaths(prev + [c])
  {
    GtStep(base, roles0, resources0, prev, c);
    var user := User(c);
    roles' := roles[RoleGtA(i) := [PassRole]][RoleGtB(i) := [RunInstances]];
    resources' := resources[ResourceGt(i) := IAMRole];
    InjectChain(G, i, user, roles'[RoleGtA(i)], roles'[RoleGtB(i)]);
    gt' := gt[user := GtChain(i)];
  }

  /** One more injection, as the recursive definitions unfold it. */
  lemma GtStep(base: map<Node, NodeType>, roles: map<Node, seq<Permission>>, resources: map<Node, ResourceKind>,
               prev: seq<nat>, c: nat)
    ensures var i := |prev|;
      GtTypes(base, prev + [c]) == GtTypes(base, prev)[RoleGtA(i) := RoleNode([PassRole])]
                                   [RoleGtB(i) := RoleNode([RunInstances])][ResourceGt(i) := ResourceNode(IAMRole)]
    ensures GtEdges(prev + [c]) == GtEdges(prev) + ChainEdges(|prev|, c)
    ensures GtRoles(roles, prev + [c]) == GtRoles(roles, prev)[RoleGtA(|prev|) := [PassRole]][RoleGtB(|prev|) := [RunInstances]]
    ensures GtResources(resources, prev + [c]) == GtResources(resources, prev)[ResourceGt(|prev|) := IAMRole]
    ensures GtPaths(prev + [c]) == GtPaths(prev)[User(c) := GtChain(|prev|)]
  {
    assert (prev + [c])[..|prev|] == prev;
  }

  /** Lines 48-54 for injection `i` and the chosen `user`. */
  method InjectChain(G: Graph, i: nat, user: Node, permsA: seq<Permission>, permsB: seq<Permission>)
    requires G.Valid() && G.nodes == G.attrs.Keys && user in G.attrs
    modifies G
    ensures G.Valid() && G.nodes == G.attrs.Keys
    ensures G.attrs == old(G.attrs)[RoleGtA(i) := RoleNode(permsA)][RoleGtB(i) := RoleNode(permsB)]
                                   [ResourceGt(i) := ResourceNode(IAMRole)]
    ensures G.edges == old(G.edges) + {(user, RoleGtA(i)), (RoleGtA(i), ResourceGt(i)), (ResourceGt(i), RoleGtB(i))}
  {
    G.AddNode(RoleGtA(i), RoleNode(permsA));
    G.AddNode(RoleGtB(i), RoleNode(permsB));
    G.AddNode(ResourceGt(i), ResourceNode(IAMRole));
    G.AddEdge(user, RoleGtA(i));
    G.AddEdge(RoleGtA(i), ResourceGt(i));
    G.AddEdge(ResourceGt(i), RoleGtB(i));
  }

  // ---------------------------------------------------------------------------
  // What the injection produces
  // ---------------------------------------------------------------------------

  lemma {:induction false} GtTypesMeaning(base: map<Node, NodeType>, choices: seq<nat>)
    ensures forall v :: v in GtTypes(base, choices) <==> v in base || GtNode(v, |choices|)
    ensures forall v :: GtNode(v, |choices|) ==>
      GtTypes(base, choices)[v] == if v.RoleGtA? then RoleNode([PassRole])
                                   else if v.RoleGtB? then RoleNode([RunInstances])
                                   else ResourceNode(IAMRole)
    ensures forall v :: v in base && !GtNode(v, |choices|) ==> GtTypes(base, choices)[v] == base[v]
  {
    if choices != [] {
      GtTypesMeaning(base, choices[..|choices| - 1]);
    }
  }

  /** The injected edges are exactly the three edges of each injection. */
  lemma {:induction false} GtEdgesMeaning(choices: seq<nat>)
    ensures forall e :: e in GtEdges(choices) <==>
      exists i :: 0 <= i < |choices| && e in ChainEdges(i, choices[i])
  {
    if choices != [] {
      var prefix := choices[..|choices| - 1];
      GtEdgesMeaning(prefix);
      forall e | e in GtEdges(choices) ensures exists i :: 0 <= i < |choices| && e in ChainEdges(i, choices[i]) {
        if e in GtEdges(prefix) {
          var i :| 0 <= i < |prefix| && e in ChainEdges(i, prefix[i]);
          assert choices[i] == prefix[i];
        } else {
          assert e in ChainEdges(|choices| - 1, choices[|choices| - 1]);
        }
      }
      forall e, i | 0 <= i < |choices| && e in ChainEdges(i, choices[i]) ensures e in GtEdges(choices) {
        if i < |prefix| {
          assert choices[i] == prefix[i];
        }
      }
    }
  }

  /** The ground-truth users are exactly the chosen ones, each recorded with
      the chain of one injection that chose it. */
  lemma {:induction false} GtPathsMeaning(choices: seq<nat>)
    ensures forall u :: u in GtPaths(choices) <==> exists i :: 0 <= i < |choices| && u == User(choices[i])
    ensures forall u :: u in GtPaths(choices) ==>
      exists i :: 0 <= i < |choices| && u == User(choices[i]) && GtPaths(choices)[u] == GtChain(i)
  {
    if choices != [] {
      var prefix := choices[..|choices| - 1];
      GtPathsMeaning(prefix);
      forall u | u in GtPaths(choices) ensures exists i :: 0 <= i < |choices| && u == User(choices[i]) && GtPaths(choices)[u] == GtChain(i) {
        if u != User(choices[|choices| - 1]) {
          assert u in GtPaths(prefix) && GtPaths(choices)[u] == GtPaths(prefix)[u];
          var i :| 0 <= i < |prefix| && u == User(prefix[i]) && GtPaths(prefix)[u] == GtChain(i);
          assert choices[i] == prefix[i];
        }
      }
      forall u, i | 0 <= i < |choices| && u == User(choices[i]) ensures u in GtPaths(choices) {
        if i < |prefix| {
          assert prefix[i] == choices[i];
        }
      }
    }
  }

  /** `1 <= |ground_truth_paths| <= max(1, num_users // 20)`: one entry per
      distinct chosen user. */
  lemma {:induction false} GtPathsSize(choices: seq<nat>)
    ensures |GtPaths(choices)| <= |choices|
    ensures |choices| >= 1 ==> |GtPaths(choices)| >= 1
  {
    if choices != [] {
      GtPathsSize(choices[..|choices| - 1]);
    }
  }

  /** Each injection adds three nodes that no earlier injection and no
      generated node used, so the node count grows by three per injection. */
  lemma {:induction false} GtTypesCount(base: map<Node, NodeType>, choices: seq<nat>)
    requires forall v :: v in base ==> !(v.RoleGtA? || v.RoleGtB? || v.ResourceGt?)
    ensures |GtTypes(base, choices)| == |base| + 3 * |choices|
  {
    if choices != [] {
      var n := |choices| - 1;
      var prefix := choices[..n];
      GtTypesCount(base, prefix);
      GtTypesMeaning(base, prefix);
      var m := GtTypes(base, prefix);
      assert RoleGtA(n) !in m && RoleGtB(n) !in m && ResourceGt(n) !in m;
      assert GtTypes(base, choices).Keys == m.Keys + {RoleGtA(n), RoleGtB(n), ResourceGt(n)};
    }
  }

  /** The injected edges are three per injection: every chain edge names its
      own injection's nodes, so no two injections share an edge. */
  lemma {:induction false} GtEdgesCount(choices: seq<nat>)
    ensures |GtEdges(choices)| == 3 * |choices|
  {
    if choices != [] {
      var n := |choices| - 1;
      var prefix := choices[..n];
      GtEdgesCount(prefix);
      GtEdgesBefore(prefix, n, choices[n]);
      ChainEdgesSize(n, choices[n]);
    }
  }

  lemma ChainEdgesSize(i: nat, c: nat)
    ensures |ChainEdges(i, c)| == 3
  {
    assert (User(c), RoleGtA(i)) != (RoleGtA(i), ResourceGt(i));
  }

  /** A later injection `n` shares no edge with the earlier ones. */
  lemma GtEdgesBefore(prefix: seq<nat>, n: nat, c: nat)
    requires |prefix| <= n
    ensures GtEdges(prefix) !! ChainEdges(n, c)
  {
    GtEdgesMeaning(prefix);
    forall e | e in GtEdges(prefix) ensures e !in ChainEdges(n, c) {
      var i :| 0 <= i < |prefix| && e in ChainEdges(i, prefix[i]);
    }
  }

  /** No assignment edge is an injected edge: assignment edges end at a
      generated `Role_j`, injected ones at a ground-truth node. */
  lemma GtEdgesApart(assignments: seq<seq<nat>>, numRoles: nat, choices: seq<nat>)
    requires forall i :: 0 <= i < |assignments| ==> IsRoleSample(assignments[i], numRoles)
    ensures AssignmentEdges(assignments) !! GtEdges(choices)
  {
    AssignmentEdgesMeaning(assignments, numRoles);
    GtEdgesMeaning(choices);
    forall e | e in GtEdges(choices) ensures e !in AssignmentEdges(assignments) {
      var i :| 0 <= i < |choices| && e in ChainEdges(i, choices[i]);
    }
  }

  /** The generated nodes are users, roles and resources, never injected nodes. */
  lemma InitialHasNoGt(numUsers: nat, rolePermissions: seq<seq<Permission>>, resourceKinds: seq<ResourceKind>)
    ensures forall v :: v in InitialTypes(numUsers, rolePermissions, resourceKinds) ==>
              !(v.RoleGtA? || v.RoleGtB? || v.ResourceGt?)
  {
    InitialTypesMeaning(numUsers, rolePermissions, resourceKinds);
  }

  /** `graph_size` of line 100: U + R + Res generated nodes, three nodes per
      injection, one edge per drawn role, three edges per injection. */
  lemma PamGraphSize(numUsers: nat, rolePermissions: seq<seq<Permission>>, resourceKinds: seq<ResourceKind>,
                     assignments: seq<seq<nat>>, choices: seq<nat>)
    requires forall i :: 0 <= i < |assignments| ==> IsRoleSample(assignments[i], |rolePermissions|)
    ensures |PamTypes(numUsers, rolePermissions, resourceKinds, choices)| + |PamEdges(assignments, choices)|
         == numUsers + |rolePermissions| + |resourceKinds| + SumOfLengths(assignments) + 6 * |choices|
  {
    InitialHasNoGt(numUsers, rolePermissions, resourceKinds);
    GtTypesCount(InitialTypes(numUsers, rolePermissions, resourceKinds), choices);
    InitialSize(numUsers, rolePermissions, resourceKinds);
    AssignmentEdgesCount(assignments, |rolePermissions|);
    GtEdgesCount(choices);
    GtEdgesApart(assignments, |rolePermissions|, choices);
  }

  lemma InitialSize(numUsers: nat, rolePermissions: seq<seq<Permission>>, resourceKinds: seq<ResourceKind>)
    ensures |InitialTypes(numUsers, rolePermissions, resourceKinds)| == numUsers + |rolePermissions| + |resourceKinds|
  {
    InitialTypesMeaning(numUsers, rolePermissions, resourceKinds);
  }

  // ---------------------------------------------------------------------------
  // Detection on the injected graph
  // ---------------------------------------------------------------------------

  /** The node map and edges of `generate_abac_model` in pam-abac.py. */
  function PamTypes(numUsers: nat, rolePermissions: seq<seq<Permission>>, resourceKinds: seq<ResourceKind>,
                    choices: seq<nat>): map<Node, NodeType>
  {
    GtTypes(InitialTypes(numUsers, rolePermissions, resourceKinds), choices)
  }

  function PamEdges(assignments: seq<seq<nat>>, choices: seq<nat>): set<(Node, Node)>
  {
    AssignmentEdges(assignments) + GtEdges(choices)
  }

  /** Typing of the pam-abac.py graph: users are typed User, the injected
      nodes carry their fixed types, and only Role_i, Role_GT_A_i and
      Role_GT_B_i nodes are typed Role. */
  lemma PamTypesFacts(numUsers: nat, rolePermissions: seq<seq<Permission>>, resourceKinds: seq<ResourceKind>,
                      choices: seq<nat>)
    ensures forall k :: 0 <= k < numUsers ==>
      User(k) in PamTypes(numUsers, rolePermissions, resourceKinds, choices)
      && PamTypes(numUsers, rolePermissions, resourceKinds, choices)[User(k)] == UserNode
    ensures forall i :: 0 <= i < |choices| ==>
      && RoleGtA(i) in PamTypes(numUsers, rolePermissions, resourceKinds, choices)
      && PamTypes(numUsers, rolePermissions, resourceKinds, choices)[RoleGtA(i)] == RoleNode([PassRole])
      && RoleGtB(i) in PamTypes(numUsers, rolePermissions, resourceKinds, choices)
      && PamTypes(numUsers, rolePermissions, resourceKinds, choices)[RoleGtB(i)] == RoleNode([RunInstances])
      && ResourceGt(i) in PamTypes(numUsers, rolePermissions, resourceKinds, choices)
      && PamTypes(numUsers, rolePermissions, resourceKinds, choices)[ResourceGt(i)] == ResourceNode(IAMRole)
    ensures forall v :: v in PamTypes(numUsers, rolePermissions, resourceKinds, choices) &&
                        PamTypes(numUsers, rolePermissions, resourceKinds, choices)[v].RoleNode? ==>
              v.Role? || v.RoleGtA? || v.RoleGtB?
  {
    InitialTypesMeaning(numUsers, rolePermissions, resourceKinds);
    GtTypesMeaning(InitialTypes(numUsers, rolePermissions, resourceKinds), choices);
  }

  /** In the pam-abac.py graph the only edges out of a role are Role_GT_A_i ->
      Resource_GT_i, and the only edge into Role_GT_A_i comes from the user
      injection i chose. */
  lemma PamEdgesFacts(assignments: seq<seq<nat>>, numRoles: nat, choices: seq<nat>)
    requires forall i :: 0 <= i < |assignments| ==> IsRoleSample(assignments[i], numRoles)
    ensures forall r, x :: (r, x) in PamEdges(assignments, choices) && (r.Role? || r.RoleGtA? || r.RoleGtB?) ==>
      r.RoleGtA? && r.i < |choices| && x == ResourceGt(r.i)
    ensures forall u, i: nat :: (u, RoleGtA(i)) in PamEdges(assignments, choices) ==> i < |choices| && u == User(choices[i])
  {
    AssignmentEdgesMeaning(assignments, numRoles);
    GtEdgesMeaning(choices);
    forall e | e in PamEdges(assignments, choices)
      ensures (e.0.Role? || e.0.RoleGtA? || e.0.RoleGtB?) ==> e.0.RoleGtA? && e.0.i < |choices| && e.1 == ResourceGt(e.0.i)
      ensures e.1.RoleGtA? ==> e.1.i < |choices| && e.0 == User(choices[e.1.i])
    {
      if e !in AssignmentEdges(assignments) {
        var i :| 0 <= i < |choices| && e in ChainEdges(i, choices[i]);
      }
    }
  }

  /** Every injected chain is one the detector accepts. */
  lemma GtChainsDetected(numUsers: nat, rolePermissions: seq<seq<Permission>>,
                         resourceKinds: seq<ResourceKind>, assignments: seq<seq<nat>>, choices: seq<nat>)
    requires forall i :: 0 <= i < |choices| ==> choices[i] < numUsers
    ensures forall i :: 0 <= i < |choices| ==>
      IsChain(PamTypes(numUsers, rolePermissions, resourceKinds, choices), PamEdges(assignments, choices),
              User(choices[i]), GtChain(i))
  {
    var A := PamTypes(numUsers, rolePermissions, resourceKinds, choices);
    var E := PamEdges(assignments, choices);
    PamTypesFacts(numUsers, rolePermissions, resourceKinds, choices);
    GtEdgesMeaning(choices);
    forall i | 0 <= i < |choices| ensures IsChain(A, E, User(choices[i]), GtChain(i)) {
      assert ChainEdges(i, choices[i]) <= E;
    }
  }

  /** Only the injected Role_GT_A roles lead to resources, so the reported
      users are exactly the ground-truth users, and each recorded
      ground-truth chain is one the detector accepts. */
  lemma DetectsExactlyGroundTruth(numUsers: nat, rolePermissions: seq<seq<Permission>>,
                                  resourceKinds: seq<ResourceKind>,
                                  assignments: seq<seq<nat>>, choices: seq<nat>)
    requires |assignments| == numUsers
    requires forall i :: 0 <= i < numUsers ==> IsRoleSample(assignments[i], |rolePermissions|)
    requires forall i :: 0 <= i < |choices| ==> choices[i] < numUsers
    ensures EscalatingUsers(PamTypes(numUsers, rolePermissions, resourceKinds, choices),
                            PamEdges(assignments, choices)) == GtPaths(choices).Keys
    ensures forall u :: u in GtPaths(choices) ==>
      IsChain(PamTypes(numUsers, rolePermissions, resourceKinds, choices), PamEdges(assignments, choices),
              u, GtPaths(choices)[u])
  {
    var A := PamTypes(numUsers, rolePermissions, resourceKinds, choices);
    var E := PamEdges(assignments, choices);
    PamTypesFacts(numUsers, rolePermissions, resourceKinds, choices);
    PamEdgesFacts(assignments, |rolePermissions|, choices);
    GtPathsMeaning(choices);
    GtChainsDetected(numUsers, rolePermissions, resourceKinds, assignments, choices);
    EscalatingUsersMeaning(A, E);
    forall u | u in GtPaths(choices) ensures Escalates(A, E, u) {
      var i :| 0 <= i < |choices| && u == User(choices[i]) && GtPaths(choices)[u] == GtChain(i);
      assert ValidHop(A, E, Launch(u, RoleGtA(i), ResourceGt(i)));
    }
    forall u | Escalates(A, E, u) ensures u in GtPaths(choices) {
      var r, x :| ValidHop(A, E, Launch(u, r, x));
      assert r.RoleGtA?;
    }
  }

  /** Lines 61-76: the same traversal as abac-dag.py, without the counter. */
  method DetectEscalationPaths(G: Graph) returns (paths: map<Node, Chain>)
    requires G.Valid() && G.nodes <= G.attrs.Keys
    ensures paths.Keys == EscalatingUsers(G.attrs, G.edges)
    ensures forall u :: u in paths ==> IsChain(G.attrs, G.edges, u, paths[u])
  {
    var count;
    paths, count := DetectPrivilegeEscalation(G);
  }

  /** One repetition of `run_privilege_escalation_simulation` (lines 86-98):
      generate with ground truth, detect, score. */
  method RunPamAbac(numUsers: nat, numRoles: nat, numResources: nat,
                    rolePermissions: seq<seq<Permission>>, resourceKinds: seq<ResourceKind>,
                    assignments: seq<seq<nat>>, choices: seq<nat>)
    returns (tp: nat, fp: nat, fn: nat, fpr: real, fnr: real, graphSize: nat)
    requires |rolePermissions| == numRoles
    requires forall j :: 0 <= j < numRoles ==> IsPermissionDraw(rolePermissions[j])
    requires |resourceKinds| == numResources
    requires |assignments| == numUsers
    requires forall i :: 0 <= i < numUsers ==> IsRoleSample(assignments[i], numRoles)
    requires |choices| == GroundTruthCount(numUsers)
    requires forall i :: 0 <= i < |choices| ==> choices[i] < numUsers
    ensures 1 <= tp <= GroundTruthCount(numUsers)
    ensures fp == 0 && fn == 0
    ensures fpr == 0.0 && fnr == 0.0
    ensures graphSize == numUsers + numRoles + numResources + SumOfLengths(assignments)
                         + 6 * GroundTruthCount(numUsers)
  {
    var roles, resources, policies, G := GenerateAbacModel(numUsers, numRoles, numResources,
                                                           rolePermissions, resourceKinds, assignments);
    InitialTypesMeaning(numUsers, rolePermissions, resourceKinds);
    var roles', resources', gt := InjectGroundTruth(G, roles, resources, numUsers, choices);
    var detected := DetectEscalationPaths(G);
    DetectsExactlyGroundTruth(numUsers, rolePermissions, resourceKinds, assignments, choices);
    GtPathsSize(choices);
    assert detected.Keys == gt.Keys;
    tp := TruePositives(detected.Keys, gt.Keys);
    fp := FalsePositives(detected.Keys, gt.Keys);
    fn := FalseNegatives(detected.Keys, gt.Keys);
    fpr := FalsePositiveRate(detected.Keys, gt.Keys);
    fnr := FalseNegativeRate(detected.Keys, gt.Keys);
    ExactDetection(gt.Keys);
    PamGraphSize(numUsers, rolePermissions, resourceKinds, assignments, choices);
    graphSize := |G.nodes| + |G.edges|;
  }
}
