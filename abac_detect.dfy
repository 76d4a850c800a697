/** `detect_privilege_escalation` of abac-dag.py: the fixed three-hop pattern
    User -> Role holding `iam:PassRole` -> `IAMRole` resource -> Role holding
    `ec2:RunInstances`, with the traversal counter. */
module AbacDetector {
  import opened Domain
  import opened DiGraphs
  import opened Abac

  /** One step the traversal counts: each increment of `traversal_count`
      is for a different one of these. */
  datatype Hop =
    | UserRole(u: Node, r: Node)          // line 56: user -> Role edge
    | RoleIam(u: Node, r: Node, x: Node)  // line 60: Role with PassRole -> IAMRole resource
    | Launch(u: Node, r: Node, x: Node)   // line 64: the resource reaches a RunInstances role

  predicate IsUser(A: map<Node, NodeType>, n: Node)
  {
    n in A && A[n].UserNode?
  }

  predicate IsRole(A: map<Node, NodeType>, n: Node)
  {
    n in A && A[n].RoleNode?
  }

  predicate IsIamRole(A: map<Node, NodeType>, n: Node)
  {
    n in A && A[n].ResourceNode? && A[n].kind == IAMRole
  }

  /** Node `n` is typed Role and lists permission `p`. */
  predicate RoleWith(A: map<Node, NodeType>, n: Node, p: Permission)
  {
    IsRole(A, n) && p in A[n].permissions
  }

  /** The third hop: `next_role` is a RunInstances role reached from resource `x` (line 62). */
  predicate LaunchTarget(A: map<Node, NodeType>, E: set<(Node, Node)>, x: Node, y: Node)
  {
    (x, y) in E && RoleWith(A, y, RunInstances)
  }

  ghost predicate HasLaunch(A: map<Node, NodeType>, E: set<(Node, Node)>, x: Node)
  {
    exists y :: LaunchTarget(A, E, x, y)
  }

  /** The hop `h` is one the traversal counts on the graph `(A, E)`. */
  ghost predicate ValidHop(A: map<Node, NodeType>, E: set<(Node, Node)>, h: Hop)
  {
    && (h.u, h.r) in E && IsUser(A, h.u) && IsRole(A, h.r)
    && (!h.UserRole? ==> (h.r, h.x) in E && IsIamRole(A, h.x) && PassRole in A[h.r].permissions)
    && (h.Launch? ==> HasLaunch(A, E, h.x))
  }

  /** Every hop of the graph, enumerated from its edges. */
  ghost function Hops(A: map<Node, NodeType>, E: set<(Node, Node)>): set<Hop>
  {
    (set e | e in E && ValidHop(A, E, UserRole(e.0, e.1)) :: UserRole(e.0, e.1))
    + (set e1, e2 | e1 in E && e2 in E && e1.1 == e2.0 && ValidHop(A, E, RoleIam(e1.0, e1.1, e2.1))
         :: RoleIam(e1.0, e1.1, e2.1))
    + (set e1, e2 | e1 in E && e2 in E && e1.1 == e2.0 && ValidHop(A, E, Launch(e1.0, e1.1, e2.1))
         :: Launch(e1.0, e1.1, e2.1))
  }

  lemma HopsMeaning(A: map<Node, NodeType>, E: set<(Node, Node)>)
    ensures forall h :: h in Hops(A, E) <==> ValidHop(A, E, h)
  {
    forall h | ValidHop(A, E, h) ensures h in Hops(A, E) {
      if !h.UserRole? {
        assert (h.u, h.r) in E && (h.r, h.x) in E;
      }
    }
  }

  /** `(role, resource, next_role)` is a complete three-hop chain out of user `u`. */
  ghost predicate IsChain(A: map<Node, NodeType>, E: set<(Node, Node)>, u: Node, c: Chain)
  {
    ValidHop(A, E, RoleIam(u, c.role, c.resource)) && LaunchTarget(A, E, c.resource, c.nextRole)
  }

  ghost predicate Escalates(A: map<Node, NodeType>, E: set<(Node, Node)>, u: Node)
  {
    exists r, x :: ValidHop(A, E, Launch(u, r, x))
  }

  /** The users the detector reports: those with at least one complete chain. */
  ghost function EscalatingUsers(A: map<Node, NodeType>, E: set<(Node, Node)>): set<Node>
  {
    set e | e in E && Escalates(A, E, e.0) :: e.0
  }

  lemma EscalatingUsersMeaning(A: map<Node, NodeType>, E: set<(Node, Node)>)
    ensures forall u :: u in EscalatingUsers(A, E) <==> Escalates(A, E, u)
  {
    forall u | Escalates(A, E, u) ensures u in EscalatingUsers(A, E) {
      var r, x :| ValidHop(A, E, Launch(u, r, x));
      assert (u, r) in E;
    }
  }

  /** Lines 61-65: the first RunInstances role among the resource's successors;
      `break` ends this loop only. */
  method FindLaunchRole(G: Graph, x: Node) returns (found: Option<Node>)
    requires G.Valid() && G.nodes <= G.attrs.Keys
    ensures found.Some? ==> LaunchTarget(G.attrs, G.edges, x, found.value)
    ensures found.None? <==> !HasLaunch(G.attrs, G.edges, x)
  {
    var todo := G.Successors(x);
    found := None;
    while todo != {}
      invariant todo <= G.Successors(x)
      invariant forall y :: y in G.Successors(x) - todo ==> !LaunchTarget(G.attrs, G.edges, x, y)
      decreases todo
    {
      var y :| y in todo;
      if G.attrs[y].RoleNode? && RunInstances in G.attrs[y].permissions {
        assert LaunchTarget(G.attrs, G.edges, x, y);
        found := Some(y);
        return;
      }
      todo := todo - {y};
    }
  }

  /** Lines 57-65 for one user -> role edge: the role's IAMRole successors. */
  method ScanRoleTargets(G: Graph, u: Node, role: Node, paths: map<Node, Chain>, count: nat,
                         ghost seen: set<Hop>)
    returns (paths': map<Node, Chain>, count': nat, ghost seen': set<Hop>)
    requires G.Valid() && G.nodes <= G.attrs.Keys
    requires ValidHop(G.attrs, G.edges, UserRole(u, role))
    requires count == |seen|
    requires forall h :: h in seen ==> !(h.u == u && h.r == role && !h.UserRole?)
    ensures count' == |seen'|
    ensures forall h :: h in seen' <==>
      h in seen || (ValidHop(G.attrs, G.edges, h) && h.u == u && h.r == role && !h.UserRole?)
    ensures forall v :: v in paths' ==>
      (v in paths && paths'[v] == paths[v]) || (v == u && IsChain(G.attrs, G.edges, u, paths'[v]))
    ensures forall v :: v in paths' <==>
      v in paths || (v == u && exists x :: ValidHop(G.attrs, G.edges, Launch(u, role, x)))
  {
    paths', count', seen' := paths, count, seen;
    var todo := G.Successors(role);
    while todo != {}
      invariant todo <= G.Successors(role)
      invariant count' == |seen'|
      invariant forall h :: h in seen' <==>
        h in seen || (ValidHop(G.attrs, G.edges, h) && h.u == u && h.r == role && !h.UserRole? && h.x !in todo)
      invariant forall v :: v in paths' ==>
        (v in paths && paths'[v] == paths[v]) || (v == u && IsChain(G.attrs, G.edges, u, paths'[v]))
      invariant forall v :: v in paths' <==>
        v in paths || (v == u && exists x :: x !in todo && ValidHop(G.attrs, G.edges, Launch(u, role, x)))
      decreases todo
    {
      var x :| x in todo;
      if G.attrs[x].ResourceNode? && G.attrs[x].kind == IAMRole {
        if PassRole in G.attrs[role].permissions {
          assert RoleIam(u, role, x) !in seen';
          count', seen' := count' + 1, seen' + {RoleIam(u, role, x)};
          var next := FindLaunchRole(G, x);
          if next.Some? {
            paths' := paths'[u := Chain(role, x, next.value)];
            assert Launch(u, role, x) !in seen';
            count', seen' := count' + 1, seen' + {Launch(u, role, x)};
          }
        }
      }
      todo := todo - {x};
    }
  }

  /** Lines 54-65 for one user: its Role successors. */
  method ScanUserRoles(G: Graph, u: Node, paths: map<Node, Chain>, count: nat, ghost seen: set<Hop>)
    returns (paths': map<Node, Chain>, count': nat, ghost seen': set<Hop>)
    requires G.Valid() && G.nodes <= G.attrs.Keys
    requires IsUser(G.attrs, u)
    requires count == |seen|
    requires forall h :: h in seen ==> h.u != u
    ensures count' == |seen'|
    ensures forall h :: h in seen' <==> h in seen || (ValidHop(G.attrs, G.edges, h) && h.u == u)
    ensures forall v :: v in paths' ==>
      (v in paths && paths'[v] == paths[v]) || (v == u && IsChain(G.attrs, G.edges, u, paths'[v]))
    ensures forall v :: v in paths' <==> v in paths || (v == u && Escalates(G.attrs, G.edges, u))
  {
    paths', count', seen' := paths, count, seen;
    var todo := G.Successors(u);
    while todo != {}
      invariant todo <= G.Successors(u)
      invariant count' == |seen'|
      invariant forall h :: h in seen' <==> h in seen || (ValidHop(G.attrs, G.edges, h) && h.u == u && h.r !in todo)
      invariant forall v :: v in paths' ==>
        (v in paths && paths'[v] == paths[v]) || (v == u && IsChain(G.attrs, G.edges, u, paths'[v]))
      invariant forall v :: v in paths' <==>
        v in paths || (v == u && exists r, x :: r !in todo && ValidHop(G.attrs, G.edges, Launch(u, r, x)))
      decreases todo
    {
      var role :| role in todo;
      if G.attrs[role].RoleNode? {
        assert UserRole(u, role) !in seen';
        count', seen' := count' + 1, seen' + {UserRole(u, role)};
        paths', count', seen' := ScanRoleTargets(G, u, role, paths', count', seen');
      }
      todo := todo - {role};
    }
  }

  /** Lines 48-67: the reported users, one chain each, and the number of traversal steps. */
  method DetectPrivilegeEscalation(G: Graph) returns (paths: map<Node, Chain>, count: nat)
    requires G.Valid() && G.nodes <= G.attrs.Keys
    ensures paths.Keys == EscalatingUsers(G.attrs, G.edges)
    ensures forall u :: u in paths ==> IsChain(G.attrs, G.edges, u, paths[u])
    ensures count == |Hops(G.attrs, G.edges)|
  {
    var users := set n | n in G.nodes && G.attrs[n].UserNode?;
    paths, count := map[], 0;
    ghost var seen: set<Hop> := {};
    var todo := users;
    while todo != {}
      invariant todo <= users
      invariant count == |seen|
      invariant forall h :: h in seen <==> ValidHop(G.attrs, G.edges, h) && h.u !in todo
      invariant forall u :: u in paths ==> IsChain(G.attrs, G.edges, u, paths[u])
      invariant forall u :: u in paths <==> IsUser(G.attrs, u) && u !in todo && Escalates(G.attrs, G.edges, u)
      decreases todo
    {
      var u :| u in todo;
      paths, count, seen := ScanUserRoles(G, u, paths, count, seen);
      todo := todo - {u};
    }
    HopsMeaning(G.attrs, G.edges);
    EscalatingUsersMeaning(G.attrs, G.edges);
    assert seen == Hops(G.attrs, G.edges);
  }

  // ---------------------------------------------------------------------------
  // Properties of the detector on the abac-dag.py pipeline
  // ---------------------------------------------------------------------------

  /** Neither generation nor the build adds an edge out of a resource, so the
      third hop never matches and no user is reported. */
  lemma NoEscalationAfterBuild(numUsers: nat, rolePermissions: seq<seq<Permission>>,
                               resourceKinds: seq<ResourceKind>, assignments: seq<seq<nat>>)
    requires |assignments| == numUsers
    requires forall i :: 0 <= i < numUsers ==> IsRoleSample(assignments[i], |rolePermissions|)
    ensures EscalatingUsers(InitialTypes(numUsers, rolePermissions, resourceKinds),
                            BuiltEdges(rolePermissions, resourceKinds, assignments)) == {}
  {
    var A := InitialTypes(numUsers, rolePermissions, resourceKinds);
    var E := BuiltEdges(rolePermissions, resourceKinds, assignments);
    InitialTypesMeaning(numUsers, rolePermissions, resourceKinds);
    AssignmentEdgesMeaning(assignments, |rolePermissions|);
    GrantEdgesWithin(rolePermissions, resourceKinds);
    forall x | IsIamRole(A, x) ensures !HasLaunch(A, E, x) {
      assert x.Resource?;
    }
    EscalatingUsersMeaning(A, E);
  }

  /** `detect_privilege_escalation` resets its counter, so a second run on the
      same graph reports the same users and the same count. */
  method DetectTwice(G: Graph) returns (paths1: map<Node, Chain>, count1: nat,
                                        paths2: map<Node, Chain>, count2: nat)
    requires G.Valid() && G.nodes <= G.attrs.Keys
    ensures paths1.Keys == paths2.Keys
    ensures count1 == count2
    ensures forall u :: u in paths2 ==> IsChain(G.attrs, G.edges, u, paths2[u])
  {
    paths1, count1 := DetectPrivilegeEscalation(G);
    paths2, count2 := DetectPrivilegeEscalation(G);
  }

  /** The abac-dag.py pipeline: generate, build, detect. */
  method RunAbacDag(numUsers: nat, numRoles: nat, numResources: nat,
                    rolePermissions: seq<seq<Permission>>, resourceKinds: seq<ResourceKind>,
                    assignments: seq<seq<nat>>)
    returns (paths: map<Node, Chain>, count: nat, graphSize: nat)
    requires |rolePermissions| == numRoles
    requires forall j :: 0 <= j < numRoles ==> IsPermissionDraw(rolePermissions[j])
    requires |resourceKinds| == numResources
    requires |assignments| == numUsers
    requires forall i :: 0 <= i < numUsers ==> IsRoleSample(assignments[i], numRoles)
    ensures paths == map[]
    ensures graphSize == numUsers + numRoles + numResources + SumOfLengths(assignments)
      + |GrantEdges(RoleTable(rolePermissions).Keys, RoleTable(rolePermissions), ResourceTable(resourceKinds))|
  {
    var roles, resources, policies, G := GenerateAbacModel(numUsers, numRoles, numResources,
                                                           rolePermissions, resourceKinds, assignments);
    BuildAbacGraph(G, roles, resources);
    BuiltGraphSize(numUsers, rolePermissions, resourceKinds, assignments);
    paths, count := DetectPrivilegeEscalation(G);
    NoEscalationAfterBuild(numUsers, rolePermissions, resourceKinds, assignments);
    graphSize := |G.nodes| + |G.edges|;
  }
}
