/** `detect_privilege_escalation` and the pipeline of ngac-dag-full-model.py:
    every PolicyClass node among the descendants of a User node is counted,
    recorded for that user and measured by its shortest distance. */
module NgacDagDetector {
  import opened Domain
  import opened DiGraphs
  import opened Reachability
  import opened Scoring
  import opened NgacDag

  predicate IsUserNode(A: map<Node, Kind>, n: Node)
  {
    n in A && A[n] == UserNode
  }

  predicate IsClassNode(A: map<Node, Kind>, n: Node)
  {
    n in A && A[n] == PolicyClassNode
  }

  /** Lines 78-80: `t` is typed PolicyClass and is a descendant of the User node `u`. */
  ghost predicate Flags(A: map<Node, Kind>, E: set<(Node, Node)>, u: Node, t: Node)
  {
    IsUserNode(A, u) && IsClassNode(A, t) && Reachable(E, u, t)
  }

  /** Every (user, policy class) pair the detector visits. */
  ghost function Pairs(A: map<Node, Kind>, E: set<(Node, Node)>): set<(Node, Node)>
  {
    set u, t | u in A.Keys && t in A.Keys && Flags(A, E, u, t) :: (u, t)
  }

  /** The users that reach some policy class. */
  ghost function FlaggedUsers(A: map<Node, Kind>, E: set<(Node, Node)>): set<Node>
  {
    set x | x in Pairs(A, E) :: x.0
  }

  /** The bookkeeping of the scan: `count` pairs, visited in the order
      `order`, each recorded in `lengths` with its shortest distance. */
  ghost predicate Tally(E: set<(Node, Node)>, count: nat, lengths: seq<nat>,
                        seen: set<(Node, Node)>, order: seq<(Node, Node)>)
  {
    && count == |seen| && |order| == count && |lengths| == count
    && (forall x :: x in seen <==> x in order)
    && (forall i :: 0 <= i < |order| ==> IsDistance(E, order[i].0, order[i].1, lengths[i]))
  }

  /** Lines 79-83 for one user: its descendants, `nx.descendants` leaving out
      the user itself. A later match overwrites `escalation_paths[user]`. */
  method ScanDescendants(G: Graph, u: Node, dist: map<Node, nat>,
                         paths: map<Node, Node>, count: nat, lengths: seq<nat>,
                         ghost seen: set<(Node, Node)>, ghost order: seq<(Node, Node)>)
    returns (paths': map<Node, Node>, count': nat, lengths': seq<nat>,
             ghost seen': set<(Node, Node)>, ghost order': seq<(Node, Node)>)
    requires G.Valid() && G.nodes <= G.attrs.Keys
    requires IsUserNode(G.attrs, u)
    requires forall t :: t in dist <==> Reachable(G.edges, u, t)
    requires forall t :: t in dist ==> IsDistance(G.edges, u, t, dist[t])
    requires dist.Keys <= G.nodes + {u}
    requires Tally(G.edges, count, lengths, seen, order)
    requires forall x :: x in seen ==> x.0 != u
    ensures Tally(G.edges, count', lengths', seen', order')
    ensures forall x :: x in seen' <==> x in seen || (x.0 == u && Flags(G.attrs, G.edges, u, x.1))
    ensures forall v :: v in paths' ==>
      (v in paths && paths'[v] == paths[v]) || (v == u && Flags(G.attrs, G.edges, u, paths'[v]))
    ensures forall v :: v in paths' <==> v in paths || (v == u && exists t :: Flags(G.attrs, G.edges, u, t))
  {
    var descendants := dist.Keys - {u};
    paths', count', lengths', seen', order' := paths, count, lengths, seen, order;
    var todo := descendants;
    while todo != {}
      invariant todo <= descendants
      invariant Tally(G.edges, count', lengths', seen', order')
      invariant forall x :: x in seen' <==>
        x in seen || (x.0 == u && x.1 !in todo && Flags(G.attrs, G.edges, u, x.1))
      invariant forall v :: v in paths' ==>
        (v in paths && paths'[v] == paths[v]) || (v == u && Flags(G.attrs, G.edges, u, paths'[v]))
      invariant forall v :: v in paths' <==>
        v in paths || (v == u && exists t :: t !in todo && Flags(G.attrs, G.edges, u, t))
      decreases todo
    {
      var t :| t in todo;
      if G.attrs[t] == PolicyClassNode {
        assert Flags(G.attrs, G.edges, u, t);
        assert (u, t) !in seen';
        count' := count' + 1;
        paths' := paths'[u := t];
        lengths' := lengths' + [dist[t]];
        seen', order' := seen' + {(u, t)}, order' + [(u, t)];
      }
      todo := todo - {t};
    }
  }

  /** Lines 79-83 for one user: `nx.descendants` by breadth-first search,
      whose distances also answer `nx.shortest_path_length`. */
  method ScanUser(G: Graph, u: Node, paths: map<Node, Node>, count: nat, lengths: seq<nat>,
                  ghost seen: set<(Node, Node)>, ghost order: seq<(Node, Node)>)
    returns (paths': map<Node, Node>, count': nat, lengths': seq<nat>,
             ghost seen': set<(Node, Node)>, ghost order': seq<(Node, Node)>)
    requires G.Valid() && G.nodes <= G.attrs.Keys
    requires IsUserNode(G.attrs, u)
    requires Tally(G.edges, count, lengths, seen, order)
    requires forall x :: x in seen ==> x.0 != u
    ensures Tally(G.edges, count', lengths', seen', order')
    ensures forall x :: x in seen' <==> x in seen || (x.0 == u && Flags(G.attrs, G.edges, u, x.1))
    ensures forall v :: v in paths' ==>
      (v in paths && paths'[v] == paths[v]) || (v == u && Flags(G.attrs, G.edges, u, paths'[v]))
    ensures forall v :: v in paths' <==> v in paths || (v == u && exists t :: Flags(G.attrs, G.edges, u, t))
  {
    var dist := Bfs(G, u);
    paths', count', lengths', seen', order' := ScanDescendants(G, u, dist, paths, count, lengths, seen, order);
  }

  /** Lines 72-90: the users with a policy class among their descendants
      (each with one of them), one count and one shortest distance per
      (user, policy class) pair, and the mean of those distances. `order`
      is the order in which the pairs were visited. */
  method DetectPrivilegeEscalation(G: Graph)
    returns (paths: map<Node, Node>, complexity: real, count: nat, lengths: seq<nat>,
             ghost order: seq<(Node, Node)>)
    requires G.Valid() && G.nodes <= G.attrs.Keys
    ensures paths.Keys == FlaggedUsers(G.attrs, G.edges)
    ensures forall u :: u in paths ==> Flags(G.attrs, G.edges, u, paths[u])
    ensures count == |Pairs(G.attrs, G.edges)|
    ensures |lengths| == count && |order| == count
    ensures forall x :: x in order <==> x in Pairs(G.attrs, G.edges)
    ensures forall i :: 0 <= i < |order| ==> IsDistance(G.edges, order[i].0, order[i].1, lengths[i])
    ensures complexity == Average(lengths)
  {
    var users := set n | n in G.nodes && G.attrs[n] == UserNode;
    paths, count, lengths, order := map[], 0, [], [];
    ghost var seen: set<(Node, Node)> := {};
    var todo := users;
    while todo != {}
      invariant todo <= users
      invariant Tally(G.edges, count, lengths, seen, order)
      invariant forall x :: x in seen <==> Flags(G.attrs, G.edges, x.0, x.1) && x.0 !in todo
      invariant forall u :: u in paths ==> Flags(G.attrs, G.edges, u, paths[u])
      invariant forall u :: u in paths <==> u !in todo && exists t :: Flags(G.attrs, G.edges, u, t)
      decreases todo
    {
      var u :| u in todo;
      paths, count, lengths, seen, order := ScanUser(G, u, paths, count, lengths, seen, order);
      todo := todo - {u};
    }
    complexity := if |lengths| > 0 then Sum(lengths) as real / |lengths| as real else 0.0;
    ScanComplete(G.attrs, G.edges, paths, seen);
  }

  /** A scan that has visited every user has seen exactly the pairs and
      recorded exactly the flagged users. */
  lemma ScanComplete(A: map<Node, Kind>, E: set<(Node, Node)>, paths: map<Node, Node>, seen: set<(Node, Node)>)
    requires forall x :: x in seen <==> Flags(A, E, x.0, x.1)
    requires forall u :: u in paths <==> exists t :: Flags(A, E, u, t)
    ensures seen == Pairs(A, E)
    ensures paths.Keys == FlaggedUsers(A, E)
  {
    forall u | u in paths ensures u in FlaggedUsers(A, E) {
      var t :| Flags(A, E, u, t);
      assert (u, t) in Pairs(A, E);
    }
  }

  // ---------------------------------------------------------------------------
  // Properties of the detector on the ngac-dag-full-model.py pipeline
  // ---------------------------------------------------------------------------

  /** The five pairs of user `u` with the policy classes. */
  function ClassPairs(u: Node): set<(Node, Node)>
  {
    {(u, PC(IAM)), (u, PC(EC2)), (u, PC(S3)), (u, PC(KMS)), (u, PC(RDS))}
  }

  /** Every pair of one of the first `n` users with a policy class. */
  function UserClassPairs(n: nat): set<(Node, Node)>
  {
    if n == 0 then {} else UserClassPairs(n - 1) + ClassPairs(User(n - 1))
  }

  lemma ClassPairsMeaning(u: Node)
    ensures forall x :: x in ClassPairs(u) <==> x.0 == u && x.1.PC?
    ensures |ClassPairs(u)| == 5
  {
    forall x: (Node, Node) | x.0 == u && x.1.PC? ensures x in ClassPairs(u) {
      match x.1.c
      case IAM =>
      case EC2 =>
      case S3 =>
      case KMS =>
      case RDS =>
    }
  }

  lemma {:induction false} UserClassPairsMeaning(n: nat)
    ensures forall x :: x in UserClassPairs(n) <==> x.0.User? && x.0.i < n && x.1.PC?
  {
    if n > 0 {
      UserClassPairsMeaning(n - 1);
      ClassPairsMeaning(User(n - 1));
    }
  }

  /** User `n` has no pair among those of the first `n` users. */
  lemma ClassPairsFresh(n: nat)
    ensures UserClassPairs(n) * ClassPairs(User(n)) == {}
  {
    UserClassPairsMeaning(n);
    ClassPairsMeaning(User(n));
    forall x | x in ClassPairs(User(n)) ensures x !in UserClassPairs(n) {
      assert x.0 == User(n);
    }
  }

  /** Five pairs per user. */
  lemma {:induction false} UserClassPairsCard(n: nat)
    ensures |UserClassPairs(n)| == 5 * n
  {
    if n > 0 {
      var prev, next := UserClassPairs(n - 1), ClassPairs(User(n - 1));
      UserClassPairsCard(n - 1);
      ClassPairsFresh(n - 1);
      ClassPairsMeaning(User(n - 1));
      assert |prev + next| == |prev| + |next|;
    }
  }

  /** The first `n` users. */
  function UserSet(n: nat): set<Node>
  {
    if n == 0 then {} else UserSet(n - 1) + {User(n - 1)}
  }

  lemma {:induction false} UserSetMeaning(n: nat)
    ensures forall u :: u in UserSet(n) <==> u.User? && u.i < n
    ensures |UserSet(n)| == n
  {
    if n > 0 {
      UserSetMeaning(n - 1);
    }
  }

  /** On a graph typed the way `generate_ngac_model` types it, the User and
      PolicyClass nodes are the generated users and the five classes. */
  ghost predicate GeneratedTyping(A: map<Node, Kind>, numUsers: nat)
  {
    && (forall n :: IsUserNode(A, n) <==> n.User? && n.i < numUsers)
    && (forall n :: IsClassNode(A, n) <==> n.PC?)
  }

  lemma GeneratedTypes(users: seq<UserData>, resources: seq<ResData>, permissions: seq<Permission>,
                       A: map<Node, Kind>)
    requires Typed(A) && A.Keys == GeneratedNodes(users, resources, permissions)
    ensures GeneratedTyping(A, |users|)
  {
    GeneratedNodesMeaning(users, resources, permissions);
  }

  /** The three edges of `User_i -> permission -> Resource_0 -> class`. */
  lemma PathEdges(users: seq<UserData>, resources: seq<ResData>, permissions: seq<Permission>,
                  u: Node, c: Node)
    requires |permissions| >= 1 && |resources| >= 1
    requires u.User? && u.i < |users| && c.PC?
    ensures (u, Perm(permissions[0])) in DagEdges(users, resources, permissions)
    ensures (Perm(permissions[0]), Resource(0)) in DagEdges(users, resources, permissions)
    ensures (Resource(0), c) in DagEdges(users, resources, permissions)
  {
    DagEdgesMeaning(users, resources, permissions);
    assert DagEdge(users, resources, permissions, (u, Perm(permissions[0])));
    assert DagEdge(users, resources, permissions, (Perm(permissions[0]), Resource(0)));
    assert DagEdge(users, resources, permissions, (Resource(0), c));
  }

  /** With at least one permission and one resource, every generated user is
      at distance exactly 3 from every policy class. */
  lemma UserReachesClass(users: seq<UserData>, resources: seq<ResData>, permissions: seq<Permission>,
                         u: Node, c: Node)
    requires |permissions| >= 1 && |resources| >= 1
    requires u.User? && u.i < |users| && c.PC?
    ensures Reachable(DagEdges(users, resources, permissions), u, c)
    ensures IsDistance(DagEdges(users, resources, permissions), u, c, 3)
  {
    var E := DagEdges(users, resources, permissions);
    PathEdges(users, resources, permissions, u, c);
    var p := [u, Perm(permissions[0]), Resource(0), c];
    assert WalkBetween(E, u, c, p);
    WalkInWithin(E, u, p);
    DagEdgesClimb(users, resources, permissions);
    WithinClimbs(E, u, 2, c);
  }

  /** On a graph typed as generated, the flagged pairs are exactly the
      user/class pairs once every such pair is connected. */
  lemma PairsOfConnected(A: map<Node, Kind>, E: set<(Node, Node)>, n: nat)
    requires GeneratedTyping(A, n)
    requires forall x :: x in UserClassPairs(n) ==> Reachable(E, x.0, x.1)
    ensures Pairs(A, E) == UserClassPairs(n)
  {
    UserClassPairsMeaning(n);
  }

  /** Hence every user reaches every policy class and nothing else is flagged. */
  lemma FullModelPairs(users: seq<UserData>, resources: seq<ResData>, permissions: seq<Permission>,
                       A: map<Node, Kind>)
    requires GeneratedTyping(A, |users|)
    requires |permissions| >= 1 && |resources| >= 1
    ensures Pairs(A, DagEdges(users, resources, permissions)) == UserClassPairs(|users|)
    ensures forall x :: x in Pairs(A, DagEdges(users, resources, permissions)) ==>
      IsDistance(DagEdges(users, resources, permissions), x.0, x.1, 3)
  {
    var E := DagEdges(users, resources, permissions);
    UserClassPairsMeaning(|users|);
    forall x | x in UserClassPairs(|users|)
      ensures Reachable(E, x.0, x.1) && IsDistance(E, x.0, x.1, 3)
    {
      UserReachesClass(users, resources, permissions, x.0, x.1);
    }
    PairsOfConnected(A, E, |users|);
  }

  /** Without a permission no edge leaves a user or a user attribute. */
  lemma NoPermissionsClosed(users: seq<UserData>, resources: seq<ResData>, permissions: seq<Permission>)
    requires |permissions| == 0
    ensures forall e :: e in DagEdges(users, resources, permissions) && (e.0.User? || e.0.UserAttr?) ==>
      e.1.UserAttr?
  {
    DagEdgesMeaning(users, resources, permissions);
  }

  /** Without a resource no edge enters a policy class. */
  lemma NoResourcesClosed(users: seq<UserData>, resources: seq<ResData>, permissions: seq<Permission>)
    requires |resources| == 0
    ensures forall e :: e in DagEdges(users, resources, permissions) ==> !e.1.PC?
  {
    DagEdgesMeaning(users, resources, permissions);
  }

  /** Without a permission or without a resource no user reaches a policy class. */
  lemma NoClassReached(users: seq<UserData>, resources: seq<ResData>, permissions: seq<Permission>,
                       u: Node, t: Node)
    requires |permissions| == 0 || |resources| == 0
    ensures u.User? && t.PC? ==> !Reachable(DagEdges(users, resources, permissions), u, t)
  {
    var E := DagEdges(users, resources, permissions);
    if u.User? && t.PC? && Reachable(E, u, t) {
      var p :| WalkBetween(E, u, t, p);
      if |permissions| == 0 {
        NoPermissionsClosed(users, resources, permissions);
        WalkStaysIn(E, (n: Node) => n.User? || n.UserAttr?, p);
      } else {
        NoResourcesClosed(users, resources, permissions);
        WalkStaysIn(E, (n: Node) => !n.PC?, p);
      }
    }
  }

  /** Hence the detector finds no pair on such a graph. */
  lemma NoPairsWithoutLayers(users: seq<UserData>, resources: seq<ResData>, permissions: seq<Permission>,
                             A: map<Node, Kind>)
    requires Typed(A)
    requires |permissions| == 0 || |resources| == 0
    ensures Pairs(A, DagEdges(users, resources, permissions)) == {}
  {
    forall x | x in Pairs(A, DagEdges(users, resources, permissions)) ensures false {
      NoClassReached(users, resources, permissions, x.0, x.1);
    }
  }

  /** When every user is paired with every class, the flagged users are
      exactly the first `n` users. */
  lemma FlaggedOfFull(A: map<Node, Kind>, E: set<(Node, Node)>, n: nat)
    requires Pairs(A, E) == UserClassPairs(n)
    ensures FlaggedUsers(A, E) == UserSet(n)
  {
    UserClassPairsMeaning(n);
    UserSetMeaning(n);
    forall u: Node | u.User? && u.i < n ensures u in FlaggedUsers(A, E) {
      assert (u, PC(IAM)) in Pairs(A, E);
    }
  }

  /** When every found pair is at distance `d`, every recorded length is `d`. */
  lemma LengthsAllEqual(E: set<(Node, Node)>, P: set<(Node, Node)>, order: seq<(Node, Node)>,
                        lengths: seq<nat>, d: nat)
    requires |lengths| == |order|
    requires forall x :: x in order ==> x in P
    requires forall x :: x in P ==> IsDistance(E, x.0, x.1, d)
    requires forall i :: 0 <= i < |order| ==> IsDistance(E, order[i].0, order[i].1, lengths[i])
    ensures forall i :: 0 <= i < |lengths| ==> lengths[i] == d
  {
    forall i | 0 <= i < |lengths| ensures lengths[i] == d {
      assert order[i] in P;
      DistanceUnique(E, order[i].0, order[i].1, lengths[i], d);
    }
  }

  /** The nodes the build adds were registered by the generation already. */
  lemma PolicyEndsRegistered(users: seq<UserData>, resources: seq<ResData>, permissions: seq<Permission>)
    ensures Ends(PolicyEdges(|users|, |resources|, permissions)) <= GeneratedNodes(users, resources, permissions)
  {
    DagEndsRegistered(users, resources, permissions);
    EndsUnion(AttributeEdges(users, resources), PolicyEdges(|users|, |resources|, permissions));
  }

  /** `generate_ngac_model` followed by `build_ngac_policy_dag` (lines 99-103). */
  method GenerateAndBuild(users: seq<UserData>, resources: seq<ResData>, permissions: seq<Permission>)
    returns (G: Graph)
    ensures fresh(G) && G.Valid() && G.nodes == G.attrs.Keys && Typed(G.attrs)
    ensures GeneratedTyping(G.attrs, |users|)
    ensures G.edges == DagEdges(users, resources, permissions)
    ensures |G.nodes| == |GeneratedNodes(users, resources, permissions)|
  {
    G := GenerateNgacModel(users, resources, permissions);
    GeneratedTypes(users, resources, permissions, G.attrs);
    PolicyEndsRegistered(users, resources, permissions);
    BuildNgacPolicyDag(G, |users|, |resources|, permissions);
  }

  /** One iteration of `run_ngac_simulation` (lines 99-110): generate, build,
      detect, then the detection accuracy and the graph size. With at least
      one permission and one resource every user is flagged, the count is
      five per user and every path has length 3; otherwise nothing is found. */
  method RunNgacDag(users: seq<UserData>, resources: seq<ResData>, permissions: seq<Permission>)
    returns (paths: map<Node, Node>, complexity: real, count: nat, accuracy: real, graphSize: nat)
    ensures forall u :: u in paths ==> paths[u].PC?
    ensures |permissions| >= 1 && |resources| >= 1 ==>
      && (forall u :: u in paths <==> u.User? && u.i < |users|)
      && count == 5 * |users|
      && complexity == (if |users| == 0 then 0.0 else 3.0)
      && accuracy == (if |users| == 0 then 0.0 else 1.0)
    ensures |permissions| == 0 || |resources| == 0 ==>
      paths == map[] && count == 0 && complexity == 0.0 && accuracy == 0.0
    ensures graphSize == |GeneratedNodes(users, resources, permissions)| + |DagEdges(users, resources, permissions)|
  {
    var G := GenerateAndBuild(users, resources, permissions);
    var lengths: seq<nat>;
    ghost var order: seq<(Node, Node)>;
    paths, complexity, count, lengths, order := DetectPrivilegeEscalation(G);
    if |permissions| >= 1 && |resources| >= 1 {
      FullModelPairs(users, resources, permissions, G.attrs);
      UserClassPairsCard(|users|);
      FlaggedOfFull(G.attrs, G.edges, |users|);
      UserSetMeaning(|users|);
      assert |paths| == |users| by {
        assert paths.Keys == UserSet(|users|);
      }
      LengthsAllEqual(G.edges, Pairs(G.attrs, G.edges), order, lengths, 3);
      AverageConstant(lengths, 3);
    } else {
      NoPairsWithoutLayers(users, resources, permissions, G.attrs);
      assert paths.Keys == {};
    }
    accuracy := DetectionAccuracy(|paths|, |users|);
    graphSize := |G.nodes| + |G.edges|;
  }
}
