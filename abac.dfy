/** The attribute-based model of abac-dag.py: users assigned to roles, roles
    connected to the resources their permissions act on, and the fixed
    three-hop "pass a role, then launch an instance" escalation pattern. */
module Abac {
  import opened Domain
  import opened DiGraphs
  import opened SetFacts

  /** Node labels: `User_i`, `Role_i`, `Resource_i`, and the ground-truth
      labels `Role_GT_A_i`, `Role_GT_B_i`, `Resource_GT_i` injected by pam-abac.py. */
  datatype Node =
    | User(i: nat) | Role(i: nat) | Resource(i: nat)
    | RoleGtA(i: nat) | RoleGtB(i: nat) | ResourceGt(i: nat)

  /** The resource types a resource is drawn from. */
  datatype ResourceKind = EC2Instance | S3Bucket | IAMRole

  /** The `type` attribute of a node; a role also carries its `permissions` list. */
  datatype NodeType = UserNode | RoleNode(permissions: seq<Permission>) | ResourceNode(kind: ResourceKind)

  type Graph = DiGraph<Node, NodeType>

  /** The recorded evidence `(role, resource, next_role)`. */
  datatype Chain = Chain(role: Node, resource: Node, nextRole: Node)

  // ---------------------------------------------------------------------------
  // Model generation (generate_abac_model)
  // ---------------------------------------------------------------------------

  /** A `random.sample(role keys, randint(1, 3))` draw: 1 to 3 distinct role indices. */
  predicate IsRoleSample(sample: seq<nat>, numRoles: nat)
  {
    && 1 <= |sample| <= 3
    && (forall j :: 0 <= j < |sample| ==> sample[j] < numRoles)
    && (forall j, k :: 0 <= j < k < |sample| ==> sample[j] != sample[k])
  }

  /** A `random.choices(all_permissions, k=randint(1, 6))` draw. */
  predicate IsPermissionDraw(perms: seq<Permission>)
  {
    1 <= |perms| <= |AllPermissions|
  }

  function RoleTable(rolePermissions: seq<seq<Permission>>): map<Node, seq<Permission>>
  {
    map j | 0 <= j < |rolePermissions| :: Role(j) := rolePermissions[j]
  }

  function ResourceTable(resourceKinds: seq<ResourceKind>): map<Node, ResourceKind>
  {
    map k | 0 <= k < |resourceKinds| :: Resource(k) := resourceKinds[k]
  }

  /** The role nodes a user's sample names, in sample order. */
  function RoleList(sample: seq<nat>): (roles: seq<Node>)
    ensures |roles| == |sample|
    ensures forall j :: 0 <= j < |sample| ==> roles[j] == Role(sample[j])
  {
    seq(|sample|, j requires 0 <= j < |sample| => Role(sample[j]))
  }

  /** `policies` after the first |assignments| users have drawn their roles. */
  function PolicyTable(assignments: seq<seq<nat>>): map<Node, seq<Node>>
  {
    if assignments == [] then map[]
    else PolicyTable(assignments[..|assignments| - 1])[User(|assignments| - 1) := RoleList(assignments[|assignments| - 1])]
  }

  /** The node map after the user loop (lines 23-24) has run `numUsers` times. */
  function UserTypes(numUsers: nat): map<Node, NodeType>
  {
    if numUsers == 0 then map[] else UserTypes(numUsers - 1)[User(numUsers - 1) := UserNode]
  }

  /** `base` after the role loop (lines 25-26) has added `rolePermissions`. */
  function WithRoles(base: map<Node, NodeType>, rolePermissions: seq<seq<Permission>>): map<Node, NodeType>
  {
    if rolePermissions == [] then base
    else WithRoles(base, rolePermissions[..|rolePermissions| - 1])
           [Role(|rolePermissions| - 1) := RoleNode(rolePermissions[|rolePermissions| - 1])]
  }

  /** `base` after the resource loop (lines 27-28) has added `resourceKinds`. */
  function WithResources(base: map<Node, NodeType>, resourceKinds: seq<ResourceKind>): map<Node, NodeType>
  {
    if resourceKinds == [] then base
    else WithResources(base, resourceKinds[..|resourceKinds| - 1])
           [Resource(|resourceKinds| - 1) := ResourceNode(resourceKinds[|resourceKinds| - 1])]
  }

  function InitialTypes(numUsers: nat, rolePermissions: seq<seq<Permission>>,
                        resourceKinds: seq<ResourceKind>): map<Node, NodeType>
  {
    WithResources(WithRoles(UserTypes(numUsers), rolePermissions), resourceKinds)
  }

  /** The edges `(user, r)` for each `r` in `roles` (lines 33-34). */
  function SampleEdges(user: Node, roles: seq<Node>): set<(Node, Node)>
  {
    if roles == [] then {} else SampleEdges(user, roles[..|roles| - 1]) + {(user, roles[|roles| - 1])}
  }

  /** The User -> Role edges after the first |assignments| users. */
  function AssignmentEdges(assignments: seq<seq<nat>>): set<(Node, Node)>
  {
    if assignments == [] then {}
    else AssignmentEdges(assignments[..|assignments| - 1])
         + SampleEdges(User(|assignments| - 1), RoleList(assignments[|assignments| - 1]))
  }

  function SumOfLengths(s: seq<seq<nat>>): nat
  {
    if s == [] then 0 else SumOfLengths(s[..|s| - 1]) + |s[|s| - 1]|
  }

  // Independent descriptions of the generated model.

  /** The nodes `generate_abac_model` registers. */
  predicate InitialNode(n: Node, numUsers: nat, numRoles: nat, numResources: nat)
  {
    || (n.User? && n.i < numUsers)
    || (n.Role? && n.i < numRoles)
    || (n.Resource? && n.i < numResources)
  }

  /** The `type` attribute such a node is given. */
  function InitialType(n: Node, rolePermissions: seq<seq<Permission>>, resourceKinds: seq<ResourceKind>): NodeType
    requires n.Role? ==> n.i < |rolePermissions|
    requires n.Resource? ==> n.i < |resourceKinds|
  {
    if n.Role? then RoleNode(rolePermissions[n.i])
    else if n.Resource? then ResourceNode(resourceKinds[n.i])
    else UserNode
  }

  /** User `u` drew role `r`. */
  predicate Assigned(assignments: seq<seq<nat>>, u: Node, r: Node)
  {
    u.User? && u.i < |assignments| && r.Role? && r.i in assignments[u.i]
  }

  lemma {:induction false} UserTypesMeaning(numUsers: nat)
    ensures forall n :: n in UserTypes(numUsers) <==> n.User? && n.i < numUsers
    ensures forall n :: n in UserTypes(numUsers) ==> UserTypes(numUsers)[n] == UserNode
    ensures |UserTypes(numUsers)| == numUsers
  {
    if numUsers > 0 {
      UserTypesMeaning(numUsers - 1);
    }
  }

  lemma {:induction false} WithRolesMeaning(base: map<Node, NodeType>, rolePermissions: seq<seq<Permission>>)
    ensures forall n :: n in WithRoles(base, rolePermissions) <==> n in base || (n.Role? && n.i < |rolePermissions|)
    ensures forall n :: n in WithRoles(base, rolePermissions) ==>
      WithRoles(base, rolePermissions)[n] == if n.Role? && n.i < |rolePermissions| then RoleNode(rolePermissions[n.i]) else base[n]
    ensures (forall n :: n in base ==> !n.Role?) ==> |WithRoles(base, rolePermissions)| == |base| + |rolePermissions|
  {
    if rolePermissions != [] {
      var prefix := rolePermissions[..|rolePermissions| - 1];
      WithRolesMeaning(base, prefix);
    }
  }

  lemma {:induction false} WithResourcesMeaning(base: map<Node, NodeType>, resourceKinds: seq<ResourceKind>)
    ensures forall n :: n in WithResources(base, resourceKinds) <==> n in base || (n.Resource? && n.i < |resourceKinds|)
    ensures forall n :: n in WithResources(base, resourceKinds) ==>
      WithResources(base, resourceKinds)[n] == if n.Resource? && n.i < |resourceKinds| then ResourceNode(resourceKinds[n.i]) else base[n]
    ensures (forall n :: n in base ==> !n.Resource?) ==> |WithResources(base, resourceKinds)| == |base| + |resourceKinds|
  {
    if resourceKinds != [] {
      var prefix := resourceKinds[..|resourceKinds| - 1];
      WithResourcesMeaning(base, prefix);
    }
  }

  /** The generated node map holds exactly the users, roles and resources,
      each with the type `generate_abac_model` gives it. */
  lemma InitialTypesMeaning(numUsers: nat, rolePermissions: seq<seq<Permission>>, resourceKinds: seq<ResourceKind>)
    ensures forall n :: n in InitialTypes(numUsers, rolePermissions, resourceKinds) <==>
              InitialNode(n, numUsers, |rolePermissions|, |resourceKinds|)
    ensures forall n :: InitialNode(n, numUsers, |rolePermissions|, |resourceKinds|) ==>
              InitialTypes(numUsers, rolePermissions, resourceKinds)[n] == InitialType(n, rolePermissions, resourceKinds)
    ensures |InitialTypes(numUsers, rolePermissions, resourceKinds)| == numUsers + |rolePermissions| + |resourceKinds|
  {
    UserTypesMeaning(numUsers);
    WithRolesMeaning(UserTypes(numUsers), rolePermissions);
    WithResourcesMeaning(WithRoles(UserTypes(numUsers), rolePermissions), resourceKinds);
  }

  lemma {:induction false} SampleEdgesMeaning(user: Node, roles: seq<Node>)
    ensures forall e :: e in SampleEdges(user, roles) <==> e.0 == user && e.1 in roles
  {
    if roles != [] {
      var prefix := roles[..|roles| - 1];
      SampleEdgesMeaning(user, prefix);
      assert roles == prefix + [roles[|roles| - 1]];
    }
  }

  lemma {:induction false} SampleEdgesCount(user: Node, roles: seq<Node>)
    requires forall j, k :: 0 <= j < k < |roles| ==> roles[j] != roles[k]
    ensures |SampleEdges(user, roles)| == |roles|
  {
    if roles != [] {
      var prefix := roles[..|roles| - 1];
      var last := roles[|roles| - 1];
      SampleEdgesCount(user, prefix);
      SampleEdgesMeaning(user, prefix);
      assert last !in prefix by {
        forall j | 0 <= j < |prefix| ensures prefix[j] != last {
          assert prefix[j] == roles[j];
        }
      }
      assert (user, last) !in SampleEdges(user, prefix);
    }
  }

  /** The role list of a sample names exactly its roles, without repeats. */
  lemma RoleListMeaning(sample: seq<nat>, numRoles: nat)
    requires IsRoleSample(sample, numRoles)
    ensures forall r :: r in RoleList(sample) <==> r.Role? && r.i in sample
    ensures forall j, k :: 0 <= j < k < |RoleList(sample)| ==> RoleList(sample)[j] != RoleList(sample)[k]
  {
    var roles := RoleList(sample);
    forall r | r in roles ensures r.Role? && r.i in sample {
      var j :| 0 <= j < |roles| && roles[j] == r;
    }
    forall r: Node | r.Role? && r.i in sample ensures r in roles {
      var j :| 0 <= j < |sample| && sample[j] == r.i;
      assert roles[j] == r;
    }
  }

  /** The generated edges are exactly the drawn user-role assignments. */
  lemma {:induction false} AssignmentEdgesMeaning(assignments: seq<seq<nat>>, numRoles: nat)
    requires forall i :: 0 <= i < |assignments| ==> IsRoleSample(assignments[i], numRoles)
    ensures forall e :: e in AssignmentEdges(assignments) <==> Assigned(assignments, e.0, e.1)
  {
    if assignments != [] {
      var last := |assignments| - 1;
      var prefix := assignments[..last];
      AssignmentEdgesMeaning(prefix, numRoles);
      RoleListMeaning(assignments[last], numRoles);
      SampleEdgesMeaning(User(last), RoleList(assignments[last]));
      forall e ensures e in AssignmentEdges(assignments) <==> Assigned(assignments, e.0, e.1) {
        if e.0.User? && e.0.i < last {
          assert assignments[e.0.i] == prefix[e.0.i];
        }
      }
    }
  }

  /** One edge per drawn role: |E| is the total length of the samples. */
  lemma {:induction false} AssignmentEdgesCount(assignments: seq<seq<nat>>, numRoles: nat)
    requires forall i :: 0 <= i < |assignments| ==> IsRoleSample(assignments[i], numRoles)
    ensures |AssignmentEdges(assignments)| == SumOfLengths(assignments)
  {
    if assignments != [] {
      var last := |assignments| - 1;
      var prefix := assignments[..last];
      AssignmentEdgesCount(prefix, numRoles);
      AssignmentEdgesMeaning(prefix, numRoles);
      RoleListMeaning(assignments[last], numRoles);
      SampleEdgesMeaning(User(last), RoleList(assignments[last]));
      SampleEdgesCount(User(last), RoleList(assignments[last]));
      assert AssignmentEdges(prefix) !! SampleEdges(User(last), RoleList(assignments[last]));
    }
  }

  /** The policy table maps each user to its drawn role list. */
  lemma {:induction false} PolicyTableMeaning(assignments: seq<seq<nat>>)
    ensures forall u :: u in PolicyTable(assignments) <==> u.User? && u.i < |assignments|
    ensures forall u :: u in PolicyTable(assignments) ==> PolicyTable(assignments)[u] == RoleList(assignments[u.i])
  {
    if assignments != [] {
      PolicyTableMeaning(assignments[..|assignments| - 1]);
    }
  }

  method GenerateAbacModel(numUsers: nat, numRoles: nat, numResources: nat,
                           rolePermissions: seq<seq<Permission>>,
                           resourceKinds: seq<ResourceKind>,
                           assignments: seq<seq<nat>>)
    returns (roles: map<Node, seq<Permission>>, resources: map<Node, ResourceKind>,
             policies: map<Node, seq<Node>>, G: Graph)
    requires |rolePermissions| == numRoles
    requires forall j :: 0 <= j < numRoles ==> IsPermissionDraw(rolePermissions[j])
    requires |resourceKinds| == numResources
    requires |assignments| == numUsers
    requires forall i :: 0 <= i < numUsers ==> IsRoleSample(assignments[i], numRoles)
    ensures fresh(G) && G.Valid()
    ensures roles == RoleTable(rolePermissions)
    ensures resources == ResourceTable(resourceKinds)
    ensures policies == PolicyTable(assignments)
    ensures G.attrs == InitialTypes(numUsers, rolePermissions, resourceKinds)
    ensures G.nodes == G.attrs.Keys
    ensures G.edges == AssignmentEdges(assignments)
  {
    roles := RoleTable(rolePermissions);
    resources := ResourceTable(resourceKinds);
    G := new DiGraph();
    AddUsers(G, numUsers);
    AddRoles(G, numUsers, rolePermissions);
    AddResources(G, numUsers, rolePermissions, resourceKinds);
    InitialTypesMeaning(numUsers, rolePermissions, resourceKinds);
    policies := AddAssignments(G, numRoles, assignments);
  }

  /** Lines 23-24. */
  method AddUsers(G: Graph, numUsers: nat)
    requires G.Valid() && G.nodes == {} && G.attrs == map[] && G.edges == {}
    modifies G
    ensures G.Valid() && G.nodes == G.attrs.Keys && G.edges == {}
    ensures G.attrs == UserTypes(numUsers)
  {
    for i := 0 to numUsers
      invariant G.Valid() && G.nodes == G.attrs.Keys && G.edges == {}
      invariant G.attrs == UserTypes(i)
    {
      G.AddNode(User(i), UserNode);
    }
  }

  /** Lines 25-26. */
  method AddRoles(G: Graph, numUsers: nat, rolePermissions: seq<seq<Permission>>)
    requires G.Valid() && G.nodes == G.attrs.Keys && G.edges == {}
    requires G.attrs == UserTypes(numUsers)
    modifies G
    ensures G.Valid() && G.nodes == G.attrs.Keys && G.edges == {}
    ensures G.attrs == WithRoles(UserTypes(numUsers), rolePermissions)
  {
    for j := 0 to |rolePermissions|
      invariant G.Valid() && G.nodes == G.attrs.Keys && G.edges == {}
      invariant G.attrs == WithRoles(UserTypes(numUsers), rolePermissions[..j])
    {
      assert rolePermissions[..j + 1][..j] == rolePermissions[..j];
      G.AddNode(Role(j), RoleNode(rolePermissions[j]));
    }
    assert rolePermissions[..|rolePermissions|] == rolePermissions;
  }

  /** Lines 27-28. */
  method AddResources(G: Graph, numUsers: nat, rolePermissions: seq<seq<Permission>>,
                      resourceKinds: seq<ResourceKind>)
    requires G.Valid() && G.nodes == G.attrs.Keys && G.edges == {}
    requires G.attrs == WithRoles(UserTypes(numUsers), rolePermissions)
    modifies G
    ensures G.Valid() && G.nodes == G.attrs.Keys && G.edges == {}
    ensures G.attrs == InitialTypes(numUsers, rolePermissions, resourceKinds)
  {
    for k := 0 to |resourceKinds|
      invariant G.Valid() && G.nodes == G.attrs.Keys && G.edges == {}
      invariant G.attrs == WithResources(WithRoles(UserTypes(numUsers), rolePermissions), resourceKinds[..k])
    {
      assert resourceKinds[..k + 1][..k] == resourceKinds[..k];
      G.AddNode(Resource(k), ResourceNode(resourceKinds[k]));
    }
    assert resourceKinds[..|resourceKinds|] == resourceKinds;
  }

  /** Lines 31-34: each user's sampled roles become its policy and its User -> Role edges. */
  method AddAssignments(G: Graph, numRoles: nat, assignments: seq<seq<nat>>)
    returns (policies: map<Node, seq<Node>>)
    requires G.Valid() && G.edges == {}
    requires forall i :: 0 <= i < |assignments| ==> IsRoleSample(assignments[i], numRoles)
    requires forall i :: 0 <= i < |assignments| ==> User(i) in G.nodes
    requires forall j :: 0 <= j < numRoles ==> Role(j) in G.nodes
    modifies G
    ensures G.Valid() && G.nodes == old(G.nodes) && G.attrs == old(G.attrs)
    ensures policies == PolicyTable(assignments)
    ensures G.edges == AssignmentEdges(assignments)
  {
    policies := map[];
    for i := 0 to |assignments|
      invariant G.Valid() && G.nodes == old(G.nodes) && G.attrs == old(G.attrs)
      invariant policies == PolicyTable(assignments[..i])
      invariant G.edges == AssignmentEdges(assignments[..i])
    {
      assert assignments[..i + 1][..i] == assignments[..i];
      policies := policies[User(i) := RoleList(assignments[i])];
      assert IsRoleSample(assignments[i], numRoles);
      AddUserEdges(G, User(i), policies[User(i)]);
    }
    assert assignments[..|assignments|] == assignments;
  }

  /** Lines 33-34: `for role in policies[user]: G.add_edge(user, role)`. */
  method AddUserEdges(G: Graph, user: Node, roles: seq<Node>)
    requires G.Valid() && user in G.nodes
    requires forall j :: 0 <= j < |roles| ==> roles[j] in G.nodes
    modifies G
    ensures G.Valid() && G.nodes == old(G.nodes) && G.attrs == old(G.attrs)
    ensures G.edges == old(G.edges) + SampleEdges(user, roles)
  {
    for j := 0 to |roles|
      invariant G.Valid() && G.nodes == old(G.nodes) && G.attrs == old(G.attrs)
      invariant G.edges == old(G.edges) + SampleEdges(user, roles[..j])
    {
      assert roles[..j + 1][..j] == roles[..j];
      G.AddEdge(user, roles[j]);
    }
    assert roles[..|roles|] == roles;
  }

  // ---------------------------------------------------------------------------
  // Role -> Resource connection (build_abac_graph)
  // ---------------------------------------------------------------------------

  /** The connection rule of lines 41-44. */
  predicate Grants(perms: seq<Permission>, kind: ResourceKind)
  {
    || (kind == EC2Instance && RunInstances in perms)
    || (kind == IAMRole && PassRole in perms)
  }

  /** The edges the inner loop adds for `role` once it has visited the resources in `xs`. */
  function RoleGrants(role: Node, perms: seq<Permission>, xs: set<Node>,
                      resources: map<Node, ResourceKind>): set<(Node, Node)>
  {
    set x | x in xs && x in resources && Grants(perms, resources[x]) :: (role, x)
  }

  /** The edges the outer loop adds once it has visited the roles in `rs`. */
  function GrantEdges(rs: set<Node>, roles: map<Node, seq<Permission>>,
                      resources: map<Node, ResourceKind>): set<(Node, Node)>
  {
    set r, x | r in rs && r in roles && x in resources && Grants(roles[r], resources[x]) :: (r, x)
  }

  lemma RoleGrantsStep(role: Node, perms: seq<Permission>, xs: set<Node>, x: Node,
                       resources: map<Node, ResourceKind>)
    requires x in resources
    ensures RoleGrants(role, perms, xs + {x}, resources)
         == RoleGrants(role, perms, xs, resources) + (if Grants(perms, resources[x]) then {(role, x)} else {})
  {
  }

  lemma GrantEdgesStep(rs: set<Node>, r: Node, roles: map<Node, seq<Permission>>,
                       resources: map<Node, ResourceKind>)
    requires r in roles
    ensures GrantEdges(rs + {r}, roles, resources)
         == GrantEdges(rs, roles, resources) + RoleGrants(r, roles[r], resources.Keys, resources)
  {
  }

  /** Lines 39-44: for every role and resource, add the edge the connection rule allows. */
  method BuildAbacGraph(G: Graph, roles: map<Node, seq<Permission>>, resources: map<Node, ResourceKind>)
    requires G.Valid()
    modifies G
    ensures G.Valid() && G.attrs == old(G.attrs)
    ensures G.edges == old(G.edges) + GrantEdges(roles.Keys, roles, resources)
    ensures G.nodes == old(G.nodes) + Ends(GrantEdges(roles.Keys, roles, resources))
  {
    var todo := roles.Keys;
    ghost var done: set<Node> := {};
    while todo != {}
      invariant todo + done == roles.Keys && todo !! done
      invariant G.Valid() && G.attrs == old(G.attrs)
      invariant G.edges == old(G.edges) + GrantEdges(done, roles, resources)
      invariant G.nodes == old(G.nodes) + Ends(GrantEdges(done, roles, resources))
      decreases todo
    {
      var role :| role in todo;
      ghost var added := GrantEdges(done, roles, resources);
      ConnectRole(G, role, roles[role], resources);
      GrantEdgesStep(done, role, roles, resources);
      EndsUnion(added, RoleGrants(role, roles[role], resources.Keys, resources));
      todo := todo - {role};
      done := done + {role};
    }
  }

  /** Lines 40-44, the inner loop for one role. */
  method ConnectRole(G: Graph, role: Node, perms: seq<Permission>, resources: map<Node, ResourceKind>)
    requires G.Valid()
    modifies G
    ensures G.Valid() && G.attrs == old(G.attrs)
    ensures G.edges == old(G.edges) + RoleGrants(role, perms, resources.Keys, resources)
    ensures G.nodes == old(G.nodes) + Ends(RoleGrants(role, perms, resources.Keys, resources))
  {
    var todo := resources.Keys;
    ghost var done: set<Node> := {};
    while todo != {}
      invariant todo + done == resources.Keys && todo !! done
      invariant G.Valid() && G.attrs == old(G.attrs)
      invariant G.edges == old(G.edges) + RoleGrants(role, perms, done, resources)
      invariant G.nodes == old(G.nodes) + Ends(RoleGrants(role, perms, done, resources))
      decreases todo
    {
      var resource :| resource in todo;
      ghost var added := RoleGrants(role, perms, done, resources);
      RoleGrantsStep(role, perms, done, resource, resources);
      if resources[resource] == EC2Instance && RunInstances in perms {
        G.AddEdge(role, resource);
        EndsAdd(added, role, resource);
      }
      if resources[resource] == IAMRole && PassRole in perms {
        G.AddEdge(role, resource);
        EndsAdd(added, role, resource);
      }
      todo := todo - {resource};
      done := done + {resource};
    }
  }

  // ---------------------------------------------------------------------------
  // The generated and built graph as a whole
  // ---------------------------------------------------------------------------

  /** The edges of `build_abac_graph(generate_abac_model(...))`. */
  function BuiltEdges(rolePermissions: seq<seq<Permission>>, resourceKinds: seq<ResourceKind>,
                      assignments: seq<seq<nat>>): set<(Node, Node)>
  {
    AssignmentEdges(assignments)
    + GrantEdges(RoleTable(rolePermissions).Keys, RoleTable(rolePermissions), ResourceTable(resourceKinds))
  }

  /** Each user has between one and three User -> Role edges, one per drawn role. */
  lemma UserRoleDegree(assignments: seq<seq<nat>>, numRoles: nat, i: nat)
    requires forall i :: 0 <= i < |assignments| ==> IsRoleSample(assignments[i], numRoles)
    requires i < |assignments|
    ensures (set e | e in AssignmentEdges(assignments) && e.0 == User(i) :: e.1) == set r | r in RoleList(assignments[i])
    ensures |set e | e in AssignmentEdges(assignments) && e.0 == User(i) :: e.1| == |assignments[i]|
    ensures 1 <= |set e | e in AssignmentEdges(assignments) && e.0 == User(i) :: e.1| <= 3
  {
    AssignmentEdgesMeaning(assignments, numRoles);
    RoleListMeaning(assignments[i], numRoles);
    var succ := set e | e in AssignmentEdges(assignments) && e.0 == User(i) :: e.1;
    forall r | r in RoleList(assignments[i]) ensures r in succ {
      assert (User(i), r) in AssignmentEdges(assignments);
    }
    DistinctCard(RoleList(assignments[i]));
  }

  /** Every new edge joins a registered role to a registered resource. */
  lemma GrantEdgesWithin(rolePermissions: seq<seq<Permission>>, resourceKinds: seq<ResourceKind>)
    ensures forall e :: e in GrantEdges(RoleTable(rolePermissions).Keys, RoleTable(rolePermissions), ResourceTable(resourceKinds)) ==>
              e.0.Role? && e.0.i < |rolePermissions| && e.1.Resource? && e.1.i < |resourceKinds|
    ensures forall e :: e in GrantEdges(RoleTable(rolePermissions).Keys, RoleTable(rolePermissions), ResourceTable(resourceKinds)) ==>
              resourceKinds[e.1.i] != S3Bucket
  {
  }

  /** Graph size after generate and build: U + R + Res nodes, one edge per drawn
      role, one edge per qualifying role-resource pair. */
  lemma {:induction false} BuiltGraphSize(numUsers: nat, rolePermissions: seq<seq<Permission>>,
                                          resourceKinds: seq<ResourceKind>, assignments: seq<seq<nat>>)
    requires |assignments| == numUsers
    requires forall i :: 0 <= i < numUsers ==> IsRoleSample(assignments[i], |rolePermissions|)
    ensures InitialTypes(numUsers, rolePermissions, resourceKinds).Keys
          + Ends(GrantEdges(RoleTable(rolePermissions).Keys, RoleTable(rolePermissions), ResourceTable(resourceKinds)))
         == InitialTypes(numUsers, rolePermissions, resourceKinds).Keys
    ensures |InitialTypes(numUsers, rolePermissions, resourceKinds).Keys|
          + |BuiltEdges(rolePermissions, resourceKinds, assignments)|
         == numUsers + |rolePermissions| + |resourceKinds| + SumOfLengths(assignments)
          + |GrantEdges(RoleTable(rolePermissions).Keys, RoleTable(rolePermissions), ResourceTable(resourceKinds))|
  {
    var grants := GrantEdges(RoleTable(rolePermissions).Keys, RoleTable(rolePermissions), ResourceTable(resourceKinds));
    InitialTypesMeaning(numUsers, rolePermissions, resourceKinds);
    AssignmentEdgesMeaning(assignments, |rolePermissions|);
    AssignmentEdgesCount(assignments, |rolePermissions|);
    GrantEdgesWithin(rolePermissions, resourceKinds);
    assert Ends(grants) <= InitialTypes(numUsers, rolePermissions, resourceKinds).Keys;
    assert AssignmentEdges(assignments) !! grants;
  }
}
