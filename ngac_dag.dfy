/** ngac-dag-full-model.py, generation and build: users, resources, their
    `key:value` attribute nodes, permissions and policy classes, then the
    dense User -> Permission -> Resource -> PolicyClass layers. */
module NgacDag {
  import opened Domain
  import opened DiGraphs
  import opened Reachability

  /** The node labels of the policy DAG. Attribute labels carry no owner:
      every user (resource) with the same value shares one node. */
  datatype Node =
    | User(i: nat)                                // "User_i"
    | UserAttr(ukey: UserKey, uvalue: UserValue)  // "UserType:Admin", ...
    | Resource(i: nat)                            // "Resource_i"
    | ResAttr(rkey: ResKey, rvalue: ResValue)     // "ResourceType:EC2", ...
    | Perm(p: Permission)                         // "iam:PassRole", ...
    | PC(c: PolicyClass)                          // "IAM", ...

  /** The `type` attribute of a node. */
  datatype Kind =
    | UserNode | UserAttributeNode | ResourceNode | ResourceAttributeNode
    | PermissionNode | PolicyClassNode

  type Graph = DiGraph<Node, Kind>

  /** The type `generate_ngac_model` gives each label. */
  function KindOf(n: Node): Kind
  {
    match n
    case User(_) => UserNode
    case UserAttr(_, _) => UserAttributeNode
    case Resource(_) => ResourceNode
    case ResAttr(_, _) => ResourceAttributeNode
    case Perm(_) => PermissionNode
    case PC(_) => PolicyClassNode
  }

  /** Every typed node carries the type of its label. */
  ghost predicate Typed(A: map<Node, Kind>)
  {
    forall n :: n in A ==> A[n] == KindOf(n)
  }

  // ---------------------------------------------------------------------------
  // What the loops produce, one loop step at a time
  // ---------------------------------------------------------------------------

  /** The attribute nodes of one user's record (lines 35-37). */
  function UserAttrNodes(items: seq<(UserKey, UserValue)>): set<Node>
  {
    if items == [] then {}
    else
      var kv := items[|items| - 1];
      UserAttrNodes(items[..|items| - 1]) + {UserAttr(kv.0, kv.1)}
  }

  /** The edges from user `u` to its attribute nodes (line 38). */
  function UserAttrEdges(u: Node, items: seq<(UserKey, UserValue)>): set<(Node, Node)>
  {
    if items == [] then {}
    else
      var kv := items[|items| - 1];
      UserAttrEdges(u, items[..|items| - 1]) + {(u, UserAttr(kv.0, kv.1))}
  }

  /** The attribute nodes of one resource's record (lines 42-44). */
  function ResAttrNodes(items: seq<(ResKey, ResValue)>): set<Node>
  {
    if items == [] then {}
    else
      var kv := items[|items| - 1];
      ResAttrNodes(items[..|items| - 1]) + {ResAttr(kv.0, kv.1)}
  }

  /** The edges from the attribute nodes into resource `x` (line 45). */
  function ResAttrEdges(items: seq<(ResKey, ResValue)>, x: Node): set<(Node, Node)>
  {
    if items == [] then {}
    else
      var kv := items[|items| - 1];
      ResAttrEdges(items[..|items| - 1], x) + {(ResAttr(kv.0, kv.1), x)}
  }

  /** The nodes the user loop (lines 33-38) registers. */
  function UserNodes(users: seq<UserData>): set<Node>
  {
    if users == [] then {}
    else UserNodes(users[..|users| - 1]) + {User(|users| - 1)} + UserAttrNodes(users[|users| - 1].Items())
  }

  function UserEdges(users: seq<UserData>): set<(Node, Node)>
  {
    if users == [] then {}
    else UserEdges(users[..|users| - 1]) + UserAttrEdges(User(|users| - 1), users[|users| - 1].Items())
  }

  /** The nodes the resource loop (lines 40-45) registers. */
  function ResNodes(resources: seq<ResData>): set<Node>
  {
    if resources == [] then {}
    else ResNodes(resources[..|resources| - 1]) + {Resource(|resources| - 1)}
         + ResAttrNodes(resources[|resources| - 1].Items())
  }

  function ResEdges(resources: seq<ResData>): set<(Node, Node)>
  {
    if resources == [] then {}
    else ResEdges(resources[..|resources| - 1])
         + ResAttrEdges(resources[|resources| - 1].Items(), Resource(|resources| - 1))
  }

  /** The permission nodes (lines 47-48); a repeated draw is one node. */
  function PermNodes(permissions: seq<Permission>): set<Node>
  {
    if permissions == [] then {}
    else PermNodes(permissions[..|permissions| - 1]) + {Perm(permissions[|permissions| - 1])}
  }

  /** The policy class nodes (lines 50-51). */
  function ClassNodes(classes: seq<PolicyClass>): set<Node>
  {
    if classes == [] then {}
    else ClassNodes(classes[..|classes| - 1]) + {PC(classes[|classes| - 1])}
  }

  /** The nodes of the generated graph. */
  function GeneratedNodes(users: seq<UserData>, resources: seq<ResData>, permissions: seq<Permission>): set<Node>
  {
    UserNodes(users) + ResNodes(resources) + PermNodes(permissions) + ClassNodes(PolicyClasses)
  }

  /** The edges of the generated graph: user -> attribute and attribute -> resource. */
  function AttributeEdges(users: seq<UserData>, resources: seq<ResData>): set<(Node, Node)>
  {
    UserEdges(users) + ResEdges(resources)
  }

  /** `u -> p` for every permission `p` drawn (lines 59-60). */
  function FanOut(u: Node, permissions: seq<Permission>): set<(Node, Node)>
  {
    if permissions == [] then {}
    else FanOut(u, permissions[..|permissions| - 1]) + {(u, Perm(permissions[|permissions| - 1]))}
  }

  /** `p -> x` for every permission `p` drawn (lines 63-64). */
  function FanIn(permissions: seq<Permission>, x: Node): set<(Node, Node)>
  {
    if permissions == [] then {}
    else FanIn(permissions[..|permissions| - 1], x) + {(Perm(permissions[|permissions| - 1]), x)}
  }

  /** `Resource_j -> c` for the first `numResources` resources (lines 67-68). */
  function IntoClass(numResources: nat, c: Node): set<(Node, Node)>
  {
    if numResources == 0 then {} else IntoClass(numResources - 1, c) + {(Resource(numResources - 1), c)}
  }

  /** The User -> Permission layer after the first `numUsers` users (lines 58-60). */
  function UserPermEdges(numUsers: nat, permissions: seq<Permission>): set<(Node, Node)>
  {
    if numUsers == 0 then {} else UserPermEdges(numUsers - 1, permissions) + FanOut(User(numUsers - 1), permissions)
  }

  /** The Permission -> Resource layer after the first `numResources` resources (lines 62-64). */
  function PermResourceEdges(numResources: nat, permissions: seq<Permission>): set<(Node, Node)>
  {
    if numResources == 0 then {}
    else PermResourceEdges(numResources - 1, permissions) + FanIn(permissions, Resource(numResources - 1))
  }

  /** The Resource -> PolicyClass layer after the classes in `classes` (lines 66-68). */
  function ResourceClassEdges(numResources: nat, classes: seq<PolicyClass>): set<(Node, Node)>
  {
    if classes == [] then {}
    else ResourceClassEdges(numResources, classes[..|classes| - 1]) + IntoClass(numResources, PC(classes[|classes| - 1]))
  }

  /** The edges `build_ngac_policy_dag` adds. */
  function PolicyEdges(numUsers: nat, numResources: nat, permissions: seq<Permission>): set<(Node, Node)>
  {
    UserPermEdges(numUsers, permissions) + PermResourceEdges(numResources, permissions)
      + ResourceClassEdges(numResources, PolicyClasses)
  }

  /** Every edge of the built DAG. */
  function DagEdges(users: seq<UserData>, resources: seq<ResData>, permissions: seq<Permission>): set<(Node, Node)>
  {
    AttributeEdges(users, resources) + PolicyEdges(|users|, |resources|, permissions)
  }

  // ---------------------------------------------------------------------------
  // Independent descriptions
  // ---------------------------------------------------------------------------

  /** The nodes of the generated graph, label by label. */
  ghost predicate GeneratedNode(users: seq<UserData>, resources: seq<ResData>, permissions: seq<Permission>, n: Node)
  {
    match n
    case User(i) => i < |users|
    case UserAttr(k, v) => exists i :: 0 <= i < |users| && (k, v) in users[i].Items()
    case Resource(i) => i < |resources|
    case ResAttr(k, v) => exists i :: 0 <= i < |resources| && (k, v) in resources[i].Items()
    case Perm(p) => p in permissions
    case PC(_) => true
  }

  /** The five kinds of edge of the built DAG. */
  predicate DagEdge(users: seq<UserData>, resources: seq<ResData>, permissions: seq<Permission>, e: (Node, Node))
  {
    || (e.0.User? && e.0.i < |users| && e.1.UserAttr? && (e.1.ukey, e.1.uvalue) in users[e.0.i].Items())
    || (e.0.ResAttr? && e.1.Resource? && e.1.i < |resources| && (e.0.rkey, e.0.rvalue) in resources[e.1.i].Items())
    || (e.0.User? && e.0.i < |users| && e.1.Perm? && e.1.p in permissions)
    || (e.0.Perm? && e.0.p in permissions && e.1.Resource? && e.1.i < |resources|)
    || (e.0.Resource? && e.0.i < |resources| && e.1.PC?)
  }

  lemma {:induction false} UserAttrNodesMeaning(items: seq<(UserKey, UserValue)>)
    ensures forall n :: n in UserAttrNodes(items) <==> n.UserAttr? && (n.ukey, n.uvalue) in items
  {
    if items != [] {
      UserAttrNodesMeaning(items[..|items| - 1]);
    }
  }

  lemma {:induction false} UserAttrEdgesMeaning(u: Node, items: seq<(UserKey, UserValue)>)
    ensures forall e :: e in UserAttrEdges(u, items) <==> e.0 == u && e.1.UserAttr? && (e.1.ukey, e.1.uvalue) in items
  {
    if items != [] {
      UserAttrEdgesMeaning(u, items[..|items| - 1]);
    }
  }

  lemma {:induction false} ResAttrNodesMeaning(items: seq<(ResKey, ResValue)>)
    ensures forall n :: n in ResAttrNodes(items) <==> n.ResAttr? && (n.rkey, n.rvalue) in items
  {
    if items != [] {
      ResAttrNodesMeaning(items[..|items| - 1]);
    }
  }

  lemma {:induction false} ResAttrEdgesMeaning(items: seq<(ResKey, ResValue)>, x: Node)
    ensures forall e :: e in ResAttrEdges(items, x) <==> e.1 == x && e.0.ResAttr? && (e.0.rkey, e.0.rvalue) in items
  {
    if items != [] {
      ResAttrEdgesMeaning(items[..|items| - 1], x);
    }
  }

  lemma {:induction false} UserNodesMeaning(users: seq<UserData>)
    ensures forall n :: n in UserNodes(users) <==>
      (n.User? && n.i < |users|) ||
      (n.UserAttr? && exists i :: 0 <= i < |users| && (n.ukey, n.uvalue) in users[i].Items())
  {
    if users != [] {
      var prefix := users[..|users| - 1];
      UserNodesMeaning(prefix);
      UserAttrNodesMeaning(users[|users| - 1].Items());
      forall n: Node | n.UserAttr? && (exists i :: 0 <= i < |users| && (n.ukey, n.uvalue) in users[i].Items())
        ensures n in UserNodes(users)
      {
        var i :| 0 <= i < |users| && (n.ukey, n.uvalue) in users[i].Items();
        if i < |prefix| {
          assert users[i] == prefix[i];
        }
      }
    }
  }

  lemma {:induction false} UserEdgesMeaning(users: seq<UserData>)
    ensures forall e :: e in UserEdges(users) <==>
      e.0.User? && e.0.i < |users| && e.1.UserAttr? && (e.1.ukey, e.1.uvalue) in users[e.0.i].Items()
  {
    if users != [] {
      var prefix := users[..|users| - 1];
      UserEdgesMeaning(prefix);
      UserAttrEdgesMeaning(User(|users| - 1), users[|users| - 1].Items());
    }
  }

  lemma {:induction false} ResNodesMeaning(resources: seq<ResData>)
    ensures forall n :: n in ResNodes(resources) <==>
      (n.Resource? && n.i < |resources|) ||
      (n.ResAttr? && exists i :: 0 <= i < |resources| && (n.rkey, n.rvalue) in resources[i].Items())
  {
    if resources != [] {
      var prefix := resources[..|resources| - 1];
      ResNodesMeaning(prefix);
      ResAttrNodesMeaning(resources[|resources| - 1].Items());
      forall n: Node | n.ResAttr? && (exists i :: 0 <= i < |resources| && (n.rkey, n.rvalue) in resources[i].Items())
        ensures n in ResNodes(resources)
      {
        var i :| 0 <= i < |resources| && (n.rkey, n.rvalue) in resources[i].Items();
        if i < |prefix| {
          assert resources[i] == prefix[i];
        }
      }
    }
  }

  lemma {:induction false} ResEdgesMeaning(resources: seq<ResData>)
    ensures forall e :: e in ResEdges(resources) <==>
      e.1.Resource? && e.1.i < |resources| && e.0.ResAttr? && (e.0.rkey, e.0.rvalue) in resources[e.1.i].Items()
  {
    if resources != [] {
      var prefix := resources[..|resources| - 1];
      ResEdgesMeaning(prefix);
      ResAttrEdgesMeaning(resources[|resources| - 1].Items(), Resource(|resources| - 1));
    }
  }

  lemma {:induction false} PermNodesMeaning(permissions: seq<Permission>)
    ensures forall n :: n in PermNodes(permissions) <==> n.Perm? && n.p in permissions
  {
    if permissions != [] {
      PermNodesMeaning(permissions[..|permissions| - 1]);
    }
  }

  lemma {:induction false} ClassNodesMeaning(classes: seq<PolicyClass>)
    ensures forall n :: n in ClassNodes(classes) <==> n.PC? && n.c in classes
  {
    if classes != [] {
      ClassNodesMeaning(classes[..|classes| - 1]);
    }
  }

  /** The generated nodes are exactly the labels `GeneratedNode` describes. */
  lemma GeneratedNodesMeaning(users: seq<UserData>, resources: seq<ResData>, permissions: seq<Permission>)
    ensures forall n :: n in GeneratedNodes(users, resources, permissions) <==>
      GeneratedNode(users, resources, permissions, n)
  {
    UserNodesMeaning(users);
    ResNodesMeaning(resources);
    PermNodesMeaning(permissions);
    ClassNodesMeaning(PolicyClasses);
    forall n: Node ensures n in GeneratedNodes(users, resources, permissions) <==>
      GeneratedNode(users, resources, permissions, n)
    {
      if n.PC? {
        ClassListed(n.c);
      }
    }
  }

  lemma {:induction false} FanOutMeaning(u: Node, permissions: seq<Permission>)
    ensures forall e :: e in FanOut(u, permissions) <==> e.0 == u && e.1.Perm? && e.1.p in permissions
  {
    if permissions != [] {
      FanOutMeaning(u, permissions[..|permissions| - 1]);
    }
  }

  lemma {:induction false} FanInMeaning(permissions: seq<Permission>, x: Node)
    ensures forall e :: e in FanIn(permissions, x) <==> e.1 == x && e.0.Perm? && e.0.p in permissions
  {
    if permissions != [] {
      FanInMeaning(permissions[..|permissions| - 1], x);
    }
  }

  lemma {:induction false} IntoClassMeaning(numResources: nat, c: Node)
    ensures forall e :: e in IntoClass(numResources, c) <==> e.1 == c && e.0.Resource? && e.0.i < numResources
  {
    if numResources > 0 {
      IntoClassMeaning(numResources - 1, c);
    }
  }

  lemma {:induction false} UserPermEdgesMeaning(numUsers: nat, permissions: seq<Permission>)
    ensures forall e :: e in UserPermEdges(numUsers, permissions) <==>
      e.0.User? && e.0.i < numUsers && e.1.Perm? && e.1.p in permissions
  {
    if numUsers > 0 {
      UserPermEdgesMeaning(numUsers - 1, permissions);
      FanOutMeaning(User(numUsers - 1), permissions);
    }
  }

  lemma {:induction false} PermResourceEdgesMeaning(numResources: nat, permissions: seq<Permission>)
    ensures forall e :: e in PermResourceEdges(numResources, permissions) <==>
      e.0.Perm? && e.0.p in permissions && e.1.Resource? && e.1.i < numResources
  {
    if numResources > 0 {
      PermResourceEdgesMeaning(numResources - 1, permissions);
      FanInMeaning(permissions, Resource(numResources - 1));
    }
  }

  lemma {:induction false} ResourceClassEdgesMeaning(numResources: nat, classes: seq<PolicyClass>)
    ensures forall e :: e in ResourceClassEdges(numResources, classes) <==>
      e.0.Resource? && e.0.i < numResources && e.1.PC? && e.1.c in classes
  {
    if classes != [] {
      ResourceClassEdgesMeaning(numResources, classes[..|classes| - 1]);
      IntoClassMeaning(numResources, PC(classes[|classes| - 1]));
    }
  }

  /** The built DAG holds exactly the five kinds of edge of `DagEdge`. */
  lemma DagEdgesMeaning(users: seq<UserData>, resources: seq<ResData>, permissions: seq<Permission>)
    ensures forall e :: e in DagEdges(users, resources, permissions) <==> DagEdge(users, resources, permissions, e)
  {
    UserEdgesMeaning(users);
    ResEdgesMeaning(resources);
    UserPermEdgesMeaning(|users|, permissions);
    PermResourceEdgesMeaning(|resources|, permissions);
    ResourceClassEdgesMeaning(|resources|, PolicyClasses);
    forall e: (Node, Node) | e.0.Resource? && e.0.i < |resources| && e.1.PC?
      ensures e in ResourceClassEdges(|resources|, PolicyClasses)
    {
      ClassListed(e.1.c);
    }
  }

  /** Every edge endpoint of the built DAG is a node `generate_ngac_model`
      registered, so the build adds no untyped node. */
  lemma DagEndsRegistered(users: seq<UserData>, resources: seq<ResData>, permissions: seq<Permission>)
    ensures Ends(DagEdges(users, resources, permissions)) <= GeneratedNodes(users, resources, permissions)
  {
    DagEdgesMeaning(users, resources, permissions);
    GeneratedNodesMeaning(users, resources, permissions);
    forall n | n in Ends(DagEdges(users, resources, permissions))
      ensures GeneratedNode(users, resources, permissions, n)
    {
      var e :| e in DagEdges(users, resources, permissions) && (e.0 == n || e.1 == n);
      assert DagEdge(users, resources, permissions, e);
    }
  }

  /** The layer of each label: every edge goes up exactly one layer. */
  function Rank(n: Node): nat
  {
    match n
    case User(_) => 0
    case UserAttr(_, _) => 1
    case Perm(_) => 1
    case ResAttr(_, _) => 1
    case Resource(_) => 2
    case PC(_) => 3
  }

  lemma DagEdgesClimb(users: seq<UserData>, resources: seq<ResData>, permissions: seq<Permission>)
    ensures forall e :: e in DagEdges(users, resources, permissions) ==> Rank(e.1) == Rank(e.0) + 1
  {
    DagEdgesMeaning(users, resources, permissions);
  }

  /** Along a walk the layer grows by one per edge. */
  lemma {:induction false} WalkClimbs(E: set<(Node, Node)>, p: seq<Node>)
    requires forall e :: e in E ==> Rank(e.1) == Rank(e.0) + 1
    requires IsWalk(E, p)
    ensures Rank(p[|p| - 1]) == Rank(p[0]) + |p| - 1
  {
    if |p| > 1 {
      var q := p[..|p| - 1];
      assert IsWalk(E, q) by {
        forall i | 0 <= i < |q| - 1 ensures (q[i], q[i + 1]) in E {
          assert q[i] == p[i] && q[i + 1] == p[i + 1];
        }
      }
      WalkClimbs(E, q);
      assert (p[|p| - 2], p[|p| - 1]) in E;
    }
  }

  /** The built DAG is acyclic: no walk with an edge ends where it starts. */
  lemma DagAcyclic(users: seq<UserData>, resources: seq<ResData>, permissions: seq<Permission>, p: seq<Node>)
    requires IsWalk(DagEdges(users, resources, permissions), p) && |p| >= 2
    ensures p[0] != p[|p| - 1]
  {
    DagEdgesClimb(users, resources, permissions);
    WalkClimbs(DagEdges(users, resources, permissions), p);
  }

  /** A node within `k` steps of `s` is at most `k` layers above it. */
  lemma {:induction false} WithinClimbs(E: set<(Node, Node)>, s: Node, k: nat, t: Node)
    requires forall e :: e in E ==> Rank(e.1) == Rank(e.0) + 1
    ensures t in Within(E, s, k) ==> Rank(t) <= Rank(s) + k
  {
    if t in Within(E, s, k) {
      WithinMeaning(E, s, k);
      var p :| WalkBetween(E, s, t, p) && |p| <= k + 1;
      WalkClimbs(E, p);
    }
  }

  // ---------------------------------------------------------------------------
  // generate_ngac_model (lines 9-53)
  // ---------------------------------------------------------------------------

  /** Lines 30-53. The random draws are the inputs: the attribute records
      of the users and the resources, and the `num_permissions` permissions
      drawn with repetition. */
  method GenerateNgacModel(users: seq<UserData>, resources: seq<ResData>, permissions: seq<Permission>)
    returns (G: Graph)
    ensures fresh(G) && G.Valid()
    ensures G.nodes == G.attrs.Keys && Typed(G.attrs)
    ensures G.nodes == GeneratedNodes(users, resources, permissions)
    ensures G.edges == AttributeEdges(users, resources)
  {
    G := new DiGraph();
    AddUsers(G, users);
    AddResources(G, resources);
    AddPermissions(G, permissions);
    AddPolicyClasses(G, PolicyClasses);
  }

  /** A generated graph: valid, every node typed, each with the type of its label. */
  ghost predicate Wf(G: Graph)
    reads G
  {
    G.Valid() && G.nodes == G.attrs.Keys && Typed(G.attrs)
  }

  /** `G.add_node(n, type=...)` with the type of the label. */
  method AddTypedNode(G: Graph, n: Node)
    requires Wf(G)
    modifies G
    ensures Wf(G)
    ensures G.nodes == old(G.nodes) + {n} && G.edges == old(G.edges)
  {
    G.AddNode(n, KindOf(n));
  }

  /** `G.add_edge(u, v)` between two typed nodes. */
  method AddTypedEdge(G: Graph, u: Node, v: Node)
    requires Wf(G) && u in G.nodes && v in G.nodes
    modifies G
    ensures Wf(G)
    ensures G.nodes == old(G.nodes) && G.edges == old(G.edges) + {(u, v)}
  {
    G.AddEdge(u, v);
  }

  /** Lines 33-38. */
  method AddUsers(G: Graph, users: seq<UserData>)
    requires Wf(G)
    modifies G
    ensures Wf(G)
    ensures G.nodes == old(G.nodes) + UserNodes(users)
    ensures G.edges == old(G.edges) + UserEdges(users)
  {
    for i := 0 to |users|
      invariant Wf(G)
      invariant G.nodes == old(G.nodes) + UserNodes(users[..i])
      invariant G.edges == old(G.edges) + UserEdges(users[..i])
    {
      UsersStep(users, i);
      AddTypedNode(G, User(i));
      AddUserAttributes(G, User(i), users[i].Items());
    }
    assert users[..|users|] == users;
  }

  lemma UsersStep(users: seq<UserData>, i: nat)
    requires i < |users|
    ensures UserNodes(users[..i + 1]) == UserNodes(users[..i]) + {User(i)} + UserAttrNodes(users[i].Items())
    ensures UserEdges(users[..i + 1]) == UserEdges(users[..i]) + UserAttrEdges(User(i), users[i].Items())
  {
    assert users[..i + 1][..i] == users[..i];
  }

  /** Lines 35-38: `key:value` nodes, typed UserAttribute, each with an edge from the user. */
  method AddUserAttributes(G: Graph, u: Node, items: seq<(UserKey, UserValue)>)
    requires Wf(G)
    requires u in G.nodes
    modifies G
    ensures Wf(G)
    ensures G.nodes == old(G.nodes) + UserAttrNodes(items)
    ensures G.edges == old(G.edges) + UserAttrEdges(u, items)
  {
    for j := 0 to |items|
      invariant Wf(G)
      invariant G.nodes == old(G.nodes) + UserAttrNodes(items[..j])
      invariant G.edges == old(G.edges) + UserAttrEdges(u, items[..j])
    {
      UserItemsStep(u, items, j);
      var attribute := UserAttr(items[j].0, items[j].1);
      AddTypedNode(G, attribute);
      AddTypedEdge(G, u, attribute);
    }
    assert items[..|items|] == items;
  }

  lemma UserItemsStep(u: Node, items: seq<(UserKey, UserValue)>, j: nat)
    requires j < |items|
    ensures UserAttrNodes(items[..j + 1]) == UserAttrNodes(items[..j]) + {UserAttr(items[j].0, items[j].1)}
    ensures UserAttrEdges(u, items[..j + 1]) == UserAttrEdges(u, items[..j]) + {(u, UserAttr(items[j].0, items[j].1))}
  {
    assert items[..j + 1][..j] == items[..j];
  }

  /** Lines 40-45. */
  method AddResources(G: Graph, resources: seq<ResData>)
    requires Wf(G)
    modifies G
    ensures Wf(G)
    ensures G.nodes == old(G.nodes) + ResNodes(resources)
    ensures G.edges == old(G.edges) + ResEdges(resources)
  {
    for i := 0 to |resources|
      invariant Wf(G)
      invariant G.nodes == old(G.nodes) + ResNodes(resources[..i])
      invariant G.edges == old(G.edges) + ResEdges(resources[..i])
    {
      ResourcesStep(resources, i);
      AddTypedNode(G, Resource(i));
      AddResourceAttributes(G, resources[i].Items(), Resource(i));
    }
    assert resources[..|resources|] == resources;
  }

  lemma ResourcesStep(resources: seq<ResData>, i: nat)
    requires i < |resources|
    ensures ResNodes(resources[..i + 1]) == ResNodes(resources[..i]) + {Resource(i)} + ResAttrNodes(resources[i].Items())
    ensures ResEdges(resources[..i + 1]) == ResEdges(resources[..i]) + ResAttrEdges(resources[i].Items(), Resource(i))
  {
    assert resources[..i + 1][..i] == resources[..i];
  }

  /** Lines 42-45: `key:value` nodes, typed ResourceAttribute, each with an edge into the resource. */
  method AddResourceAttributes(G: Graph, items: seq<(ResKey, ResValue)>, x: Node)
    requires Wf(G)
    requires x in G.nodes
    modifies G
    ensures Wf(G)
    ensures G.nodes == old(G.nodes) + ResAttrNodes(items)
    ensures G.edges == old(G.edges) + ResAttrEdges(items, x)
  {
    for j := 0 to |items|
      invariant Wf(G)
      invariant G.nodes == old(G.nodes) + ResAttrNodes(items[..j])
      invariant G.edges == old(G.edges) + ResAttrEdges(items[..j], x)
    {
      ResItemsStep(items, x, j);
      var attribute := ResAttr(items[j].0, items[j].1);
      AddTypedNode(G, attribute);
      AddTypedEdge(G, attribute, x);
    }
    assert items[..|items|] == items;
  }

  lemma ResItemsStep(items: seq<(ResKey, ResValue)>, x: Node, j: nat)
    requires j < |items|
    ensures ResAttrNodes(items[..j + 1]) == ResAttrNodes(items[..j]) + {ResAttr(items[j].0, items[j].1)}
    ensures ResAttrEdges(items[..j + 1], x) == ResAttrEdges(items[..j], x) + {(ResAttr(items[j].0, items[j].1), x)}
  {
    assert items[..j + 1][..j] == items[..j];
  }

  /** Lines 47-48. */
  method AddPermissions(G: Graph, permissions: seq<Permission>)
    requires Wf(G)
    modifies G
    ensures Wf(G)
    ensures G.nodes == old(G.nodes) + PermNodes(permissions)
    ensures G.edges == old(G.edges)
  {
    for j := 0 to |permissions|
      invariant Wf(G)
      invariant G.nodes == old(G.nodes) + PermNodes(permissions[..j])
      invariant G.edges == old(G.edges)
    {
      assert PermNodes(permissions[..j + 1]) == PermNodes(permissions[..j]) + {Perm(permissions[j])} by {
        assert permissions[..j + 1][..j] == permissions[..j];
      }
      AddTypedNode(G, Perm(permissions[j]));
    }
    assert permissions[..|permissions|] == permissions;
  }

  /** Lines 50-51. */
  method AddPolicyClasses(G: Graph, classes: seq<PolicyClass>)
    requires Wf(G)
    modifies G
    ensures Wf(G)
    ensures G.nodes == old(G.nodes) + ClassNodes(classes)
    ensures G.edges == old(G.edges)
  {
    for j := 0 to |classes|
      invariant Wf(G)
      invariant G.nodes == old(G.nodes) + ClassNodes(classes[..j])
      invariant G.edges == old(G.edges)
    {
      assert ClassNodes(classes[..j + 1]) == ClassNodes(classes[..j]) + {PC(classes[j])} by {
        assert classes[..j + 1][..j] == classes[..j];
      }
      AddTypedNode(G, PC(classes[j]));
    }
    assert classes[..|classes|] == classes;
  }

  // ---------------------------------------------------------------------------
  // build_ngac_policy_dag (lines 55-70)
  // ---------------------------------------------------------------------------

  /** Lines 58-68: the three dense layers. An endpoint not yet in the graph
      would become an untyped node; `DagEndsRegistered` shows that on a
      generated graph there is none. */
  method BuildNgacPolicyDag(G: Graph, numUsers: nat, numResources: nat, permissions: seq<Permission>)
    requires G.Valid()
    modifies G
    ensures G.Valid() && G.attrs == old(G.attrs)
    ensures G.edges == old(G.edges) + PolicyEdges(numUsers, numResources, permissions)
    ensures G.nodes == old(G.nodes) + Ends(PolicyEdges(numUsers, numResources, permissions))
  {
    AddUserPermissions(G, numUsers, permissions);
    AddPermissionResources(G, numResources, permissions);
    AddResourceClasses(G, numResources, PolicyClasses);
    EndsUnion(UserPermEdges(numUsers, permissions), PermResourceEdges(numResources, permissions));
    EndsUnion(UserPermEdges(numUsers, permissions) + PermResourceEdges(numResources, permissions),
              ResourceClassEdges(numResources, PolicyClasses));
  }

  /** Lines 58-60. */
  method AddUserPermissions(G: Graph, numUsers: nat, permissions: seq<Permission>)
    requires G.Valid()
    modifies G
    ensures G.Valid() && G.attrs == old(G.attrs)
    ensures G.edges == old(G.edges) + UserPermEdges(numUsers, permissions)
    ensures G.nodes == old(G.nodes) + Ends(UserPermEdges(numUsers, permissions))
  {
    for i := 0 to numUsers
      invariant G.Valid() && G.attrs == old(G.attrs)
      invariant G.edges == old(G.edges) + UserPermEdges(i, permissions)
      invariant G.nodes == old(G.nodes) + Ends(UserPermEdges(i, permissions))
    {
      UserPermStep(i, permissions);
      AddFanOut(G, User(i), permissions);
    }
  }

  lemma UserPermStep(i: nat, permissions: seq<Permission>)
    ensures UserPermEdges(i + 1, permissions) == UserPermEdges(i, permissions) + FanOut(User(i), permissions)
    ensures Ends(UserPermEdges(i + 1, permissions)) == Ends(UserPermEdges(i, permissions)) + Ends(FanOut(User(i), permissions))
  {
    EndsUnion(UserPermEdges(i, permissions), FanOut(User(i), permissions));
  }

  /** Lines 59-60 for one user. */
  method AddFanOut(G: Graph, u: Node, permissions: seq<Permission>)
    requires G.Valid()
    modifies G
    ensures G.Valid() && G.attrs == old(G.attrs)
    ensures G.edges == old(G.edges) + FanOut(u, permissions)
    ensures G.nodes == old(G.nodes) + Ends(FanOut(u, permissions))
  {
    for j := 0 to |permissions|
      invariant G.Valid() && G.attrs == old(G.attrs)
      invariant G.edges == old(G.edges) + FanOut(u, permissions[..j])
      invariant G.nodes == old(G.nodes) + Ends(FanOut(u, permissions[..j]))
    {
      FanOutStep(u, permissions, j);
      G.AddEdge(u, Perm(permissions[j]));
    }
    assert permissions[..|permissions|] == permissions;
  }

  lemma FanOutStep(u: Node, permissions: seq<Permission>, j: nat)
    requires j < |permissions|
    ensures FanOut(u, permissions[..j + 1]) == FanOut(u, permissions[..j]) + {(u, Perm(permissions[j]))}
    ensures Ends(FanOut(u, permissions[..j + 1])) == Ends(FanOut(u, permissions[..j])) + {u, Perm(permissions[j])}
  {
    assert permissions[..j + 1][..j] == permissions[..j];
    EndsAdd(FanOut(u, permissions[..j]), u, Perm(permissions[j]));
  }

  /** Lines 62-64. */
  method AddPermissionResources(G: Graph, numResources: nat, permissions: seq<Permission>)
    requires G.Valid()
    modifies G
    ensures G.Valid() && G.attrs == old(G.attrs)
    ensures G.edges == old(G.edges) + PermResourceEdges(numResources, permissions)
    ensures G.nodes == old(G.nodes) + Ends(PermResourceEdges(numResources, permissions))
  {
    for i := 0 to numResources
      invariant G.Valid() && G.attrs == old(G.attrs)
      invariant G.edges == old(G.edges) + PermResourceEdges(i, permissions)
      invariant G.nodes == old(G.nodes) + Ends(PermResourceEdges(i, permissions))
    {
      PermResourceStep(i, permissions);
      AddFanIn(G, permissions, Resource(i));
    }
  }

  lemma PermResourceStep(i: nat, permissions: seq<Permission>)
    ensures PermResourceEdges(i + 1, permissions) == PermResourceEdges(i, permissions) + FanIn(permissions, Resource(i))
    ensures Ends(PermResourceEdges(i + 1, permissions))
         == Ends(PermResourceEdges(i, permissions)) + Ends(FanIn(permissions, Resource(i)))
  {
    EndsUnion(PermResourceEdges(i, permissions), FanIn(permissions, Resource(i)));
  }

  /** Lines 63-64 for one resource. */
  method AddFanIn(G: Graph, permissions: seq<Permission>, x: Node)
    requires G.Valid()
    modifies G
    ensures G.Valid() && G.attrs == old(G.attrs)
    ensures G.edges == old(G.edges) + FanIn(permissions, x)
    ensures G.nodes == old(G.nodes) + Ends(FanIn(permissions, x))
  {
    for j := 0 to |permissions|
      invariant G.Valid() && G.attrs == old(G.attrs)
      invariant G.edges == old(G.edges) + FanIn(permissions[..j], x)
      invariant G.nodes == old(G.nodes) + Ends(FanIn(permissions[..j], x))
    {
      FanInStep(permissions, x, j);
      G.AddEdge(Perm(permissions[j]), x);
    }
    assert permissions[..|permissions|] == permissions;
  }

  lemma FanInStep(permissions: seq<Permission>, x: Node, j: nat)
    requires j < |permissions|
    ensures FanIn(permissions[..j + 1], x) == FanIn(permissions[..j], x) + {(Perm(permissions[j]), x)}
    ensures Ends(FanIn(permissions[..j + 1], x)) == Ends(FanIn(permissions[..j], x)) + {Perm(permissions[j]), x}
  {
    assert permissions[..j + 1][..j] == permissions[..j];
    EndsAdd(FanIn(permissions[..j], x), Perm(permissions[j]), x);
  }

  /** Lines 66-68. */
  method AddResourceClasses(G: Graph, numResources: nat, classes: seq<PolicyClass>)
    requires G.Valid()
    modifies G
    ensures G.Valid() && G.attrs == old(G.attrs)
    ensures G.edges == old(G.edges) + ResourceClassEdges(numResources, classes)
    ensures G.nodes == old(G.nodes) + Ends(ResourceClassEdges(numResources, classes))
  {
    for j := 0 to |classes|
      invariant G.Valid() && G.attrs == old(G.attrs)
      invariant G.edges == old(G.edges) + ResourceClassEdges(numResources, classes[..j])
      invariant G.nodes == old(G.nodes) + Ends(ResourceClassEdges(numResources, classes[..j]))
    {
      ResourceClassStep(numResources, classes, j);
      AddIntoClass(G, numResources, PC(classes[j]));
    }
    assert classes[..|classes|] == classes;
  }

  lemma ResourceClassStep(numResources: nat, classes: seq<PolicyClass>, j: nat)
    requires j < |classes|
    ensures ResourceClassEdges(numResources, classes[..j + 1])
         == ResourceClassEdges(numResources, classes[..j]) + IntoClass(numResources, PC(classes[j]))
    ensures Ends(ResourceClassEdges(numResources, classes[..j + 1]))
         == Ends(ResourceClassEdges(numResources, classes[..j])) + Ends(IntoClass(numResources, PC(classes[j])))
  {
    assert classes[..j + 1][..j] == classes[..j];
    EndsUnion(ResourceClassEdges(numResources, classes[..j]), IntoClass(numResources, PC(classes[j])));
  }

  /** Lines 67-68 for one policy class. */
  method AddIntoClass(G: Graph, numResources: nat, c: Node)
    requires G.Valid()
    modifies G
    ensures G.Valid() && G.attrs == old(G.attrs)
    ensures G.edges == old(G.edges) + IntoClass(numResources, c)
    ensures G.nodes == old(G.nodes) + Ends(IntoClass(numResources, c))
  {
    for j := 0 to numResources
      invariant G.Valid() && G.attrs == old(G.attrs)
      invariant G.edges == old(G.edges) + IntoClass(j, c)
      invariant G.nodes == old(G.nodes) + Ends(IntoClass(j, c))
    {
      IntoClassStep(j, c);
      G.AddEdge(Resource(j), c);
    }
  }

  lemma IntoClassStep(j: nat, c: Node)
    ensures IntoClass(j + 1, c) == IntoClass(j, c) + {(Resource(j), c)}
    ensures Ends(IntoClass(j + 1, c)) == Ends(IntoClass(j, c)) + {Resource(j), c}
  {
    EndsAdd(IntoClass(j, c), Resource(j), c);
  }
}
