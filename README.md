# Privilege-escalation detection over ABAC graphs, NGAC DAGs and NGAC hypergraphs

The repository simulates privilege-escalation detection in a cloud IAM
setting under three encodings of the same access policy:

- **ABAC as a directed graph** (`abac-dag.py`, `pam-abac.py`). Users are
  assigned roles. Roles reach resources when their permissions allow it.
  A detector looks for the three-hop pattern: a role holding
  `iam:PassRole` reaches an `IAMRole` resource, which leads to a role
  holding `ec2:RunInstances`. `pam-abac.py` injects known chains as ground
  truth and scores the detector with TP/FP/FN and `max(1, …)`-guarded rates.
- **NGAC as a policy DAG** (`ngac-dag-full-model.py`). Users and resources
  hang off shared `key:value` attribute nodes. Every user is wired to every
  permission, every permission to every resource, and every resource to the
  five policy classes. A user is flagged when a policy class is among its
  descendants, and the shortest-path length is recorded as well.
- **NGAC as a hypergraph** (`ngac-hypergraph-ground-truth.py`,
  `ngac-hypergraph-fixed.py`, `ngac-hypergraph-fn-fr.py`). An `edges` dict is
  keyed by one running counter. The detectors flag every `User_`/`Resource_`
  node that lies in a hyperedge with a policy-class member. The first
  variant uses the membership index and the other two scan all edges. The
  fn-fr variant injects ground-truth hyperedges at random and counts FP/FN.
- **File-system permissions as a hypergraph** (`hypergraph.py`). A
  `(user, filesystem) → permission letters` map gets a superadmin override.
  The pairs are then grouped into hyperedges labelled by the sorted letters,
  and each edge is given a colour.

Every random draw is an explicit input. Each precondition on a draw is the
range the draw comes from (for example, 1 to 3 distinct roles, or an index
below the list's length). With the draws fixed, every step is deterministic
up to set and dict iteration order. The model leaves that order open: a
value the source stores "last found" is specified as *some* matching
witness, while key sets and counts are pinned down exactly.

Modules, following the source files:

| module | file | models |
|---|---|---|
| `Domain` | `domain.dfy` | permissions, policy classes, attribute keys and values |
| `DiGraphs` | `digraph.dfy` | the networkx `DiGraph` as a class: node set, node attributes, edge set |
| `SetFacts` | `sets.dfy` | cardinality facts about sequences turned into sets |
| `Scoring` | `scoring.dfy` | TP/FP/FN, guarded rates, detection accuracy, averages |
| `Abac` | `abac.dfy` | `generate_abac_model` and `build_abac_graph` of `abac-dag.py` |
| `AbacDetector` | `abac_detect.dfy` | the three-hop detector and its traversal counter, and the `abac-dag.py` run |
| `PamAbac` | `pam_abac.dfy` | ground-truth injection, detection and scoring of `pam-abac.py` |
| `Reachability` | `reachability.dfy` | descendants and shortest distances, with breadth-first search |
| `NgacDag` | `ngac_dag.dfy` | `generate_ngac_model` and `build_ngac_policy_dag` of `ngac-dag-full-model.py` |
| `NgacDagDetector` | `ngac_dag_detect.dfy` | the DAG detector, path complexity, and the run |
| `Labels` | `labels.dfy` | hypergraph node names and the substring tests applied to them |
| `NgacHypergraph` | `ngac_hypergraph.dfy` | the counter-keyed hyperedge construction of all three variants |
| `HypergraphDetector` | `hypergraph_detect.dfy` | the three detectors: index scan, full scan, and FP-counting scan |
| `HypergraphRuns` | `hypergraph_runs.dfy` | what the detectors find on generated hypergraphs, and the three runs |
| `PermissionHypergraph` | `permission_hypergraph.dfy` | superadmin override, grouping by permission set, edge colours |

Behaviour kept exactly as the code has it:

- **The `break` in the three-hop detectors.** It leaves only the innermost
  loop, so a later match for the same user overwrites the stored chain. The
  model records some valid chain per escalating user; it does not promise
  the first one.
- **The leaked loop variable `resource`.** In the hypergraph builders, the
  `{resource, policy_class}` hyperedges use the `resource` variable that
  the loop before them leaves behind, which is always the last resource.
  Only that resource is ever linked to a policy class.
- **`ground_truth_paths` in `ngac-hypergraph-ground-truth.py`.** It is never
  filled, so that variant reports FN = 0 and FP = number of flagged nodes.
- **The superadmin comment in `hypergraph.py`.** The comment names Bob and
  Charlie, but the loop runs over `["Root"]` only. The model follows the
  code.

## Model

| member | source | states |
|---|---|---|
| DiGraphs.DiGraph.constructor | abac-dag.py:20 | a new graph has no nodes, no attributes and no edges |
| DiGraphs.DiGraph.AddNode | abac-dag.py:24 | the node joins the node set and its attributes are set; the edges are unchanged |
| DiGraphs.DiGraph.AddEdge | abac-dag.py:34 | the edge joins the edge set and both endpoints join the node set (as networkx does); attributes unchanged; adding an edge twice is the same as once |
| DiGraphs.DiGraph.Successors | abac-dag.py:54 | v is a successor of u exactly when (u, v) is an edge |
| Abac.RoleList | abac-dag.py:32 | the sampled role indices become role nodes, one per index, in order |
| Abac.RoleListMeaning | abac-dag.py:32 | a sampled role list holds exactly the sampled roles, with no repeats |
| Abac.UserTypesMeaning | abac-dag.py:23-24 | the nodes typed User are exactly User_0 … User_{n-1}, n of them |
| Abac.WithRolesMeaning | abac-dag.py:25-26 | after the role loop, each Role_j is typed Role with its drawn permission list; earlier nodes keep their type; the node count grows by the number of roles |
| Abac.WithResourcesMeaning | abac-dag.py:27-28 | after the resource loop, each Resource_j is typed with its drawn kind; earlier nodes are unchanged; the count grows by the number of resources |
| Abac.InitialTypesMeaning | abac-dag.py:22-28 | the typed nodes are exactly the users, roles and resources, each with its type; there are U + R + Res of them |
| Abac.SampleEdgesMeaning | abac-dag.py:33-34 | a user's assignment edges go from that user to exactly the sampled roles |
| Abac.SampleEdgesCount | abac-dag.py:32-34 | a sample of distinct roles gives one edge per sampled role |
| Abac.AssignmentEdgesMeaning | abac-dag.py:30-34 | the edges of generate are exactly the user→role pairs of the samples |
| Abac.AssignmentEdgesCount | abac-dag.py:30-34 | generate adds Σ \|policies[user]\| edges |
| Abac.UserRoleDegree | abac-dag.py:31-34 | each user's successors are exactly its sampled roles: between 1 and 3 distinct ones |
| Abac.PolicyTableMeaning | abac-dag.py:31-32 | `policies` has one entry per user, holding that user's sampled roles |
| Abac.AddUsers | abac-dag.py:23-24 | the user loop types every user node and adds no edge |
| Abac.AddRoles | abac-dag.py:25-26 | the role loop types every role node and adds no edge |
| Abac.AddResources | abac-dag.py:27-28 | the resource loop types every resource node and adds no edge |
| Abac.AddUserEdges | abac-dag.py:33-34 | the inner loop adds exactly one user's assignment edges and no node |
| Abac.AddAssignments | abac-dag.py:30-34 | the loop fills `policies` and adds exactly the assignment edges; nodes and types are unchanged |
| Abac.GenerateAbacModel | abac-dag.py:9-36 | the returned tables are the drawn roles, resources and policies; the graph holds exactly the typed users, roles and resources, and only the assignment edges |
| Abac.ConnectRole | abac-dag.py:40-44 | one role gains an edge to a resource exactly when the resource is EC2Instance and the role has RunInstances, or the resource is IAMRole and the role has PassRole |
| Abac.BuildAbacGraph | abac-dag.py:38-46 | the graph gains exactly the qualifying role→resource edges and their endpoints; types are unchanged |
| Abac.GrantEdgesWithin | abac-dag.py:39-44 | every edge build adds goes from a role to a resource, and never to an S3Bucket |
| Abac.BuiltGraphSize | abac-dag.py:23-44 | build adds no new node; nodes plus edges equal U + R + Res + Σ\|policies[user]\| + the number of qualifying role–resource pairs |
| AbacDetector.HopsMeaning | abac-dag.py:53-64 | the counted traversals are exactly the three kinds of hop the loops count: user→Role, Role with PassRole→IAMRole, and IAMRole→Role with RunInstances |
| AbacDetector.EscalatingUsersMeaning | abac-dag.py:53-63 | the users the detector keys are exactly those with a complete user→role→IAMRole→role chain |
| AbacDetector.FindLaunchRole | abac-dag.py:61-65 | the innermost loop finds a RunInstances role after the IAMRole resource exactly when one exists, and what it returns is one |
| AbacDetector.ScanRoleTargets | abac-dag.py:57-65 | one role's resource loop counts its hops and records a chain for the user exactly when one runs through this role |
| AbacDetector.ScanUserRoles | abac-dag.py:54-65 | one user's loop counts all of that user's hops and records a chain exactly when the user escalates |
| AbacDetector.DetectPrivilegeEscalation | abac-dag.py:48-67 | the map keys exactly the escalating users; every stored triple is a real chain with the required types and permissions; the count is the number of hops |
| AbacDetector.DetectTwice | abac-dag.py:50 | since the counter is reset, running the detector twice on one graph gives the same keys and the same count |
| AbacDetector.NoEscalationAfterBuild | abac-dag.py:31-61 | generate and build never add an edge out of a resource, so no user escalates on a generated and built graph |
| AbacDetector.RunAbacDag | abac-dag.py:69-87 | one run detects nothing, and its graph size is U + R + Res + Σ\|policies[user]\| + the number of qualifying role–resource pairs |
| PamAbac.GroundTruthCount | pam-abac.py:37 | `max(1, num_users // 20)` chains are injected: always at least one |
| PamAbac.InjectChain | pam-abac.py:39-54 | one injection adds Role_GT_A_i {PassRole}, Role_GT_B_i {RunInstances}, Resource_GT_i (IAMRole) and exactly the edges user→A→resource→B |
| PamAbac.InjectOne | pam-abac.py:38-57 | one turn of the injection loop: the types, edges, `roles`, `resources` and `ground_truth_paths` after it are those of the turns so far plus this turn's chain |
| PamAbac.InjectGroundTruth | pam-abac.py:36-57 | the injection loop adds the chains' types and edges to the graph, extends `roles` and `resources`, and records `ground_truth_paths` |
| PamAbac.GtTypesMeaning | pam-abac.py:43-50 | after injection, the GT nodes carry their fixed types and every other node keeps its type |
| PamAbac.GtEdgesMeaning | pam-abac.py:52-54 | the injected edges are exactly the three edges of each chain |
| PamAbac.GtPathsMeaning | pam-abac.py:38-57 | `ground_truth_paths` keys exactly the chosen users; each one maps to the chain of one of its injections |
| PamAbac.GtPathsSize | pam-abac.py:37-57 | 1 ≤ \|ground_truth_paths\| ≤ max(1, num_users // 20), because a repeated choice overwrites its entry |
| PamAbac.PamTypesFacts | pam-abac.py:14-50 | in the pam-abac graph, users are typed User, the GT roles and resources have their fixed types, and every role node is a drawn role or a GT role |
| PamAbac.PamEdgesFacts | pam-abac.py:30-54 | the only edges that leave a role are GT_A_i→Resource_GT_i, and each GT_A_i is entered only from its chosen user |
| PamAbac.GtChainsDetected | pam-abac.py:52-74 | every injected chain is a chain the detector accepts |
| PamAbac.DetectsExactlyGroundTruth | pam-abac.py:31-74 | on a generated graph, the escalating users are exactly the ground-truth users (FN = 0 and FP = 0) |
| PamAbac.DetectEscalationPaths | pam-abac.py:61-76 | the map keys exactly the escalating users, and each stored triple is a valid chain |
| PamAbac.GtTypesCount | pam-abac.py:48-50 | each injection adds three nodes new to the graph, so the node count grows by 3 per injection |
| PamAbac.GtEdgesCount | pam-abac.py:52-54 | no two injections share an edge, so the injected edges number 3 per injection |
| PamAbac.PamGraphSize | pam-abac.py:100 | nodes plus edges of the injected graph equal U + R + Res + Σ\|policies[user]\| + 6 per injection |
| PamAbac.RunPamAbac | pam-abac.py:86-100 | one run finds 1 ≤ TP ≤ max(1, U // 20), FP = FN = 0, and fpr = fnr = 0, and `graph_size` is U + R + Res + Σ\|policies[user]\| + 6·max(1, U // 20) |
| Scoring.TruePositives | pam-abac.py:93 | the number of detected users that are in the ground truth; at most either set's size, and equal to the detected count exactly when every detection is true (sum with FP in Scoring.Partition) |
| Scoring.FalsePositives | pam-abac.py:94 | the number of detected users outside the ground truth; at most the detected count, and 0 exactly when the detections lie inside the ground truth (Scoring.Partition) |
| Scoring.FalseNegatives | pam-abac.py:95 | the number of ground-truth users not detected; at most the ground-truth size, and 0 exactly when every ground-truth user is detected (Scoring.Partition) |
| Scoring.Max1 | pam-abac.py:97-98 | `max(1, n)` is at least 1 and at least n, and equals n when n ≥ 1 |
| Scoring.Partition | pam-abac.py:93-95 | TP + FP = \|detected\| and TP + FN = \|ground truth\| |
| Scoring.RatioBounds | pam-abac.py:97-98 | a numerator no larger than max(1, den) gives a ratio in [0, 1] |
| Scoring.RateBounds | pam-abac.py:97-98 | fpr and fnr lie in [0, 1]; each is 0 exactly when its numerator set is empty |
| Scoring.FalsePositiveRate | pam-abac.py:97 | `FP / max(1, FP + TP)`, non-negative; within [0, 1] and 0 exactly when there is no false positive (Scoring.RateBounds) |
| Scoring.FalseNegativeRate | pam-abac.py:98 | `FN / max(1, \|ground truth\|)`, non-negative; within [0, 1] and 0 exactly when there is no false negative (Scoring.RateBounds) |
| Scoring.ExactDetection | pam-abac.py:93-98 | detecting exactly the ground truth gives TP = \|truth\|, FP = FN = 0 and both rates 0 |
| Scoring.WorkedExample | pam-abac.py:93-98 | an example: detected {A, B} against truth {A} has TP 1, FP 1 and fpr 0.5; detected {A} against truth {A, C} has FN 1 and fnr 0.5 |
| Scoring.DetectionAccuracy | ngac-dag-full-model.py:109 | `flagged / max(1, population)` is non-negative, at most 1 when flagged ≤ population, 0 exactly when nothing is flagged, and 1 when everyone of a non-empty population is flagged |
| Scoring.Sum | ngac-dag-full-model.py:86 | `sum(path_lengths)`, no smaller than any single length |
| Scoring.Average | ngac-dag-full-model.py:85-88 | the mean path length, non-negative, and 0 for no lengths; lengths that all equal k average to k (Scoring.AverageConstant) |
| Scoring.AverageConstant | ngac-dag-full-model.py:85-88 | the path complexity of lengths that all equal k is k, and it is 0 for no lengths |
| Reachability.WithinMeaning | ngac-dag-full-model.py:79 | the nodes found within k layers are exactly those at the end of a walk of at most k steps |
| Reachability.Closed | ngac-dag-full-model.py:79 | once a layer adds nothing, the nodes found are exactly the reachable ones |
| Reachability.DistanceIsShortest | ngac-dag-full-model.py:83 | a recorded distance is no longer than any walk between the two nodes |
| Reachability.DistanceUnique | ngac-dag-full-model.py:83 | the shortest distance between two nodes is unique |
| Reachability.ExpandLayer | ngac-dag-full-model.py:79-83 | one breadth-first layer extends the distance map to exactly the nodes within k + 1 steps and returns the new frontier |
| Reachability.ExpandAll | ngac-dag-full-model.py:79-83 | the layers stop at a fixpoint; the map then covers all nodes within k steps, each at its shortest distance |
| Reachability.Bfs | ngac-dag-full-model.py:79-83 | the keys are exactly the nodes reachable from s, and each value is the shortest path length (`nx.descendants`, `nx.shortest_path_length`) |
| NgacDag.UserAttrNodesMeaning | ngac-dag-full-model.py:35-37 | a user's attribute nodes are exactly its `key:value` items, with no owner prefix |
| NgacDag.UserAttrEdgesMeaning | ngac-dag-full-model.py:35-38 | a user's attribute edges go from the user to exactly its attribute nodes |
| NgacDag.ResAttrNodesMeaning | ngac-dag-full-model.py:42-44 | a resource's attribute nodes are exactly its `key:value` items |
| NgacDag.ResAttrEdgesMeaning | ngac-dag-full-model.py:42-45 | a resource's attribute edges go from exactly its attribute nodes to the resource |
| NgacDag.UserNodesMeaning | ngac-dag-full-model.py:33-37 | the user loop registers exactly the users and every attribute value some user drew, so equal values share one node |
| NgacDag.UserEdgesMeaning | ngac-dag-full-model.py:33-38 | the user loop adds exactly user→own-attribute edges |
| NgacDag.ResNodesMeaning | ngac-dag-full-model.py:40-44 | the resource loop registers exactly the resources and every attribute value some resource drew |
| NgacDag.ResEdgesMeaning | ngac-dag-full-model.py:40-45 | the resource loop adds exactly attribute→own-resource edges |
| NgacDag.PermNodesMeaning | ngac-dag-full-model.py:47-48 | the permission nodes are exactly the distinct drawn permissions, so duplicates collapse |
| NgacDag.ClassNodesMeaning | ngac-dag-full-model.py:50-51 | the policy-class nodes are exactly the listed classes |
| NgacDag.GeneratedNodesMeaning | ngac-dag-full-model.py:33-51 | the registered nodes are exactly users, user attributes, resources, resource attributes, permissions and the five classes |
| NgacDag.AddUserAttributes | ngac-dag-full-model.py:35-38 | the inner loop adds exactly one user's attribute nodes and edges |
| NgacDag.AddUsers | ngac-dag-full-model.py:33-38 | the user loop adds exactly the user nodes, their attribute nodes and the attribute edges, each node typed |
| NgacDag.AddResourceAttributes | ngac-dag-full-model.py:42-45 | the inner loop adds exactly one resource's attribute nodes and edges |
| NgacDag.AddResources | ngac-dag-full-model.py:40-45 | the resource loop adds exactly the resource nodes, their attribute nodes and edges |
| NgacDag.AddPermissions | ngac-dag-full-model.py:47-48 | the loop adds exactly the permission nodes and no edge |
| NgacDag.AddPolicyClasses | ngac-dag-full-model.py:50-51 | the loop adds exactly the class nodes and no edge |
| NgacDag.GenerateNgacModel | ngac-dag-full-model.py:9-53 | every node is typed; the nodes are exactly the generated ones and the edges exactly the attribute edges |
| NgacDag.FanOutMeaning | ngac-dag-full-model.py:59-60 | one user gains exactly an edge to each drawn permission |
| NgacDag.FanInMeaning | ngac-dag-full-model.py:63-64 | one resource gains exactly an edge from each drawn permission |
| NgacDag.IntoClassMeaning | ngac-dag-full-model.py:67-68 | one class gains exactly an edge from each resource |
| NgacDag.UserPermEdgesMeaning | ngac-dag-full-model.py:58-60 | the first build loop adds exactly user→p for every user and permission |
| NgacDag.PermResourceEdgesMeaning | ngac-dag-full-model.py:62-64 | the second adds exactly p→r for every permission and resource |
| NgacDag.ResourceClassEdgesMeaning | ngac-dag-full-model.py:66-68 | the third adds exactly r→pc for every resource and class |
| NgacDag.AddFanOut | ngac-dag-full-model.py:59-60 | the inner loop adds exactly one user's permission edges; types are unchanged |
| NgacDag.AddUserPermissions | ngac-dag-full-model.py:58-60 | the loop adds exactly the user→permission edges |
| NgacDag.AddFanIn | ngac-dag-full-model.py:63-64 | the inner loop adds exactly one resource's permission edges |
| NgacDag.AddPermissionResources | ngac-dag-full-model.py:62-64 | the loop adds exactly the permission→resource edges |
| NgacDag.AddIntoClass | ngac-dag-full-model.py:67-68 | the inner loop adds exactly one class's resource edges |
| NgacDag.AddResourceClasses | ngac-dag-full-model.py:66-68 | the loop adds exactly the resource→class edges |
| NgacDag.BuildNgacPolicyDag | ngac-dag-full-model.py:55-70 | build adds exactly the three dense layers of edges and their endpoints; types are unchanged |
| NgacDag.DagEdgesMeaning | ngac-dag-full-model.py:33-68 | the built graph's edges are exactly the attribute edges plus the three policy layers |
| NgacDag.DagEndsRegistered | ngac-dag-full-model.py:33-68 | every endpoint of an edge of the built graph is a node that generate registered with a type |
| NgacDag.DagEdgesClimb | ngac-dag-full-model.py:35-68 | every edge goes one rank up: User→{UserAttribute, Permission}, ResourceAttribute→Resource, Permission→Resource, Resource→PolicyClass |
| NgacDag.DagAcyclic | ngac-dag-full-model.py:35-68 | no non-trivial walk of the built graph returns to its start: the graph is a DAG |
| NgacDagDetector.ScanDescendants | ngac-dag-full-model.py:79-83 | the descendant loop counts one traversal and one length per reachable class, and records a reachable class for the user exactly when one exists |
| NgacDagDetector.ScanUser | ngac-dag-full-model.py:78-83 | one user's scan does the same, from a fresh breadth-first search |
| NgacDagDetector.DetectPrivilegeEscalation | ngac-dag-full-model.py:72-90 | the map keys exactly the users that reach a class and stores one reachable class; the count is the number of (user, reachable class) pairs; each length is that pair's shortest distance; complexity is their average, or 0 |
| NgacDagDetector.ClassPairsMeaning | ngac-dag-full-model.py:28 | a user pairs with exactly the five policy classes |
| NgacDagDetector.UserClassPairsCard | ngac-dag-full-model.py:78-81 | n users pair with 5·n (user, class) pairs |
| NgacDagDetector.GeneratedTypes | ngac-dag-full-model.py:33-51 | after generate, the nodes typed User are exactly the generated users and the nodes typed PolicyClass exactly the five classes |
| NgacDagDetector.UserReachesClass | ngac-dag-full-model.py:58-68 | with at least one permission and one resource, every user reaches every class at shortest distance exactly 3 |
| NgacDagDetector.FullModelPairs | ngac-dag-full-model.py:58-83 | in that case the detected pairs are all 5·U user–class pairs, each at distance 3 |
| NgacDagDetector.NoClassReached | ngac-dag-full-model.py:58-80 | without permissions or without resources, no user reaches any class |
| NgacDagDetector.NoPairsWithoutLayers | ngac-dag-full-model.py:58-83 | in that case nothing is counted |
| NgacDagDetector.FlaggedOfFull | ngac-dag-full-model.py:82 | when all user–class pairs are reachable, every user is flagged |
| NgacDagDetector.LengthsAllEqual | ngac-dag-full-model.py:83-88 | when every detected pair is at distance d, every recorded length is d |
| NgacDagDetector.GenerateAndBuild | ngac-dag-full-model.py:99-104 | generate then build gives exactly the DAG's edges over the generated, typed nodes |
| NgacDagDetector.RunNgacDag | ngac-dag-full-model.py:96-111 | with ≥ 1 permission and ≥ 1 resource, every user is flagged with a class, count = 5·U, complexity = 3 and accuracy = 1 (0 with no users); otherwise nothing is flagged and all three are 0 |
| Labels.NatString | ngac-hypergraph-fixed.py:14 | `str(i)` is a non-empty string of digits, with at least two digits from 10 on |
| Labels.NatStringInjective | ngac-hypergraph-fixed.py:14 | different numbers print differently |
| Labels.Render | ngac-hypergraph-fixed.py:9-56 | the node name of a label: user and user-attribute names begin with `User_`, resource and resource-attribute names with `Resource_`; distinct labels get distinct names (Labels.RenderInjective) |
| Labels.RenderInjective | ngac-hypergraph-fixed.py:37-73 | different labels print as different node names, so naming nodes by labels merges nothing |
| Labels.UserLabelTest | ngac-hypergraph-fixed.py:88 | `'User_' in name` holds exactly for user nodes and user attribute nodes |
| Labels.ResourceLabelTest | ngac-hypergraph-fixed.py:101 | `'Resource_' in name` holds exactly for resource nodes and resource attribute nodes |
| Labels.ClassLabelTest | ngac-hypergraph-fixed.py:94 | a name is in `['IAM', 'EC2', 'S3', 'KMS', 'RDS']` exactly when it is a policy class |
| NgacHypergraph.ToMapMeaning | ngac-hypergraph-fixed.py:30-76 | after the insertions, each key carries the counter of its insertion and maps to what was inserted; no key is overwritten, so there are as many edges as insertions |
| NgacHypergraph.TruthPathsMeaning | ngac-hypergraph-fn-fr.py:50-54 | `ground_truth_paths` keys exactly the users whose injection fired, maps each to its drawn class, and has one entry per injection |
| NgacHypergraph.UserEntriesLength | ngac-hypergraph-fn-fr.py:40-60 | the user loop inserts 3·U + \|GT\| hyperedges |
| NgacHypergraph.ResEntriesLength | ngac-hypergraph-fixed.py:53-59 | the resource loop inserts 3·R hyperedges |
| NgacHypergraph.PermEntriesLength | ngac-hypergraph-fixed.py:62-69 | the permission loop inserts P·(R + 5) hyperedges, counting duplicate permissions |
| NgacHypergraph.EdgeCount | ngac-hypergraph-fn-fr.py:31-79 | all keys are distinct, and there are 3·U + \|GT\| + 3·R + P·(R + 5) hyperedges (\|GT\| = 0 in the other two files) |
| NgacHypergraph.Insert | ngac-hypergraph-fixed.py:43-44 | one insertion puts the members under the key of the current counter and bumps the counter |
| NgacHypergraph.AddUserAttributes | ngac-hypergraph-fixed.py:46-50 | the attribute loop inserts {user, `user_key:value`} for each item |
| NgacHypergraph.AddUser | ngac-hypergraph-fn-fr.py:41-60 | one user adds {user, selected permission, selected resource}, then its truth edge when the injection fires, then its attribute edges; the truth map gains that user exactly then |
| NgacHypergraph.AddUsers | ngac-hypergraph-fn-fr.py:40-60 | the user loop inserts every user's hyperedges in order and builds `ground_truth_paths` |
| NgacHypergraph.AddResourceAttributes | ngac-hypergraph-fixed.py:55-59 | the inner loop inserts {`resource_key:value`, resource} for each item |
| NgacHypergraph.AddResources | ngac-hypergraph-fixed.py:53-59 | the resource loop inserts every resource's attribute hyperedges |
| NgacHypergraph.AddFan | ngac-hypergraph-fixed.py:64-66 | one permission gets {permission, resource} for every resource, and the loop variable ends at the last resource |
| NgacHypergraph.AddClasses | ngac-hypergraph-fixed.py:67-69 | the class loop inserts {resource, class} for each class, with the leaked `resource` |
| NgacHypergraph.AddPermissions | ngac-hypergraph-fixed.py:62-69 | the permission loop inserts every fan and class block in order |
| NgacHypergraph.GenerateHypergraph | ngac-hypergraph-fn-fr.py:9-88 | the hypergraph is the map of all insertions in order; its edge count is 3·U + \|GT\| + 3·R + P·(R + 5); the truth map is the injected one (empty for the other two files) |
| HypergraphDetector.NameTest | ngac-hypergraph-fixed.py:88 | the name test is true exactly for the nodes the pass scans |
| HypergraphDetector.ClassTest | ngac-hypergraph-fixed.py:94 | the `any(...)` test is true exactly when the hyperedge has a policy-class member |
| HypergraphDetector.MembershipsMeaning | ngac-hypergraph-ground-truth.py:94-97 | the membership index of a node holds exactly the keys of hyperedges containing it, so the guard at line 97 is always true |
| HypergraphDetector.FromHitRooted | ngac-hypergraph-fixed.py:96 | every stored path is a hyperedge that contains the flagged node and a policy class |
| HypergraphDetector.TraverseIndexed | ngac-hypergraph-ground-truth.py:94-103 | the index loop over one node counts and records exactly that node's class-holding hyperedges |
| HypergraphDetector.TraverseAll | ngac-hypergraph-fixed.py:89-97 | the full edge loop over one node gives the same result as the index loop |
| HypergraphDetector.TraverseCounting | ngac-hypergraph-fn-fr.py:101-110 | the same, and FP grows by one per matching hyperedge of a node outside the ground truth |
| HypergraphDetector.VisitIndexed | ngac-hypergraph-ground-truth.py:93-103 | one step of the index-based pass: a scanned node is traversed, any other node is skipped |
| HypergraphDetector.VisitAll | ngac-hypergraph-fixed.py:88-97 | one step of the full-scan pass |
| HypergraphDetector.VisitCounting | ngac-hypergraph-fn-fr.py:100-110 | one step of the FP-counting pass; FP counts the matching (node, edge) pairs of non-truth nodes seen so far |
| HypergraphDetector.ScanIndexed | ngac-hypergraph-ground-truth.py:92-117 | a pass over all nodes flags exactly the scanned nodes in a class-holding hyperedge and counts every such (node, edge) pair, each with length 1 |
| HypergraphDetector.ScanAll | ngac-hypergraph-fixed.py:87-110 | the full-scan pass has the same result |
| HypergraphDetector.ScanCounting | ngac-hypergraph-fn-fr.py:99-110 | the same, and FP is the number of matching pairs whose node is not in the ground truth |
| HypergraphDetector.CountOutside | ngac-hypergraph-ground-truth.py:125-130 | a counting loop over one set returns the number of its elements missing from the other |
| HypergraphDetector.DetectGroundTruth | ngac-hypergraph-ground-truth.py:82-131 | flags exactly the scanned users and resources in a class-holding hyperedge; count = matching pairs; complexity = 1 if any, else 0; FP and FN are the set differences against the truth |
| HypergraphDetector.DetectFixed | ngac-hypergraph-fixed.py:80-117 | the same keys, count and complexity as the index-based detector, and the same property of every stored path (a class-holding hyperedge through the node) |
| HypergraphDetector.DetectFnFr | ngac-hypergraph-fn-fr.py:90-121 | only user-named nodes are scanned; FP counts matching hyperedges of non-truth users, not users; FN = truth users not flagged |
| HypergraphRuns.HitsMeaning | ngac-hypergraph-fixed.py:87-110 | a (node, edge) pair is counted exactly when the node is scanned and lies in the edge, and the edge has a policy class |
| HypergraphRuns.FlaggedMeaning | ngac-hypergraph-fixed.py:87-110 | a node is flagged exactly when it is scanned and some class-holding hyperedge contains it |
| HypergraphRuns.UserAttrsNoClass | ngac-hypergraph-fixed.py:46-50 | user attribute hyperedges never hold a policy class |
| HypergraphRuns.ResAttrsNoClass | ngac-hypergraph-fixed.py:55-59 | resource attribute hyperedges never hold a policy class |
| HypergraphRuns.FanNoClass | ngac-hypergraph-fixed.py:64-66 | permission–resource hyperedges never hold a policy class |
| HypergraphRuns.ThroughCount | ngac-hypergraph-fn-fr.py:40-79 | the class-holding hyperedges through a node are its truth edge for an injected user, 5·P for the last resource, and none for any other node |
| HypergraphRuns.UserPass | ngac-hypergraph-fn-fr.py:40-107 | on a generated hypergraph, the user pass flags exactly the injected users, with one matching pair each |
| HypergraphRuns.ResourcePass | ngac-hypergraph-fixed.py:62-110 | the resource pass flags only the last resource (nothing when P = 0), with 5·P matching pairs |
| HypergraphRuns.NoFalsePositives | ngac-hypergraph-fn-fr.py:47-110 | no user outside the ground truth lies in a class-holding hyperedge |
| HypergraphRuns.RunGroundTruth | ngac-hypergraph-ground-truth.py:147-164 | flags exactly {last resource} when P ≥ 1 (nothing otherwise); count = 5·P; complexity 1 or 0; FN = 0 and FP = number flagged; accuracy = 1/max(1, U) or 0 |
| HypergraphRuns.RunFixed | ngac-hypergraph-fixed.py:135-150 | the same keys, count, complexity and accuracy; no user is ever flagged |
| HypergraphRuns.RunFnFr | ngac-hypergraph-fn-fr.py:135-149 | flags exactly the ground-truth users; count = \|GT\|; FP = FN = 0; complexity 1 if \|GT\| > 0, else 0; accuracy = \|GT\|/max(1, U) |
| PermissionHypergraph.GrantAll | hypergraph.py:54-55 | one superadmin gets {r, w, x} on every filesystem; every other entry is unchanged |
| PermissionHypergraph.ApplySuperadmins | hypergraph.py:53-55 | every (superadmin, fs) maps to {r, w, x} and every other entry is unchanged; a map that already grants this is returned unchanged |
| PermissionHypergraph.EdgeLabel | hypergraph.py:60 | `''.join(sorted(perms))`, built by taking the least letter first; its meaning (strictly sorted, exactly the given letters, injective) is stated by PermissionHypergraph.LabelMeaning and PermissionHypergraph.LabelInjective |
| PermissionHypergraph.LabelMeaning | hypergraph.py:60 | the edge label is strictly sorted and has exactly the pair's permission letters |
| PermissionHypergraph.LabelIsSortedLetters | hypergraph.py:60 | the label is the one strictly sorted string of those letters |
| PermissionHypergraph.LabelInjective | hypergraph.py:60 | two permission sets get the same label exactly when they are equal |
| PermissionHypergraph.GroupByPermissions | hypergraph.py:58-62 | the hyperedges are labelled exactly by the labels of the pairs' sets, and each holds exactly the users and filesystems of the pairs with that label |
| PermissionHypergraph.PairsAreMembers | hypergraph.py:58-62 | both the user and the filesystem of every pair are in the hyperedge of its label |
| PermissionHypergraph.MembersComeFromPairs | hypergraph.py:58-62 | every member of a hyperedge comes from a pair whose set has that label |
| PermissionHypergraph.HyperedgeCount | hypergraph.py:58-62 | there is one hyperedge per distinct permission set |
| PermissionHypergraph.EdgeColors | hypergraph.py:76 | the colour map has exactly one entry per hyperedge |
| PermissionHypergraph.PairColor | hypergraph.py:68-76 | a pair's hyperedge is coloured grey (#AAAAAA) exactly when its set is none of {r}, {r, w}, {r, x}, {r, w, x} |
| PermissionHypergraph.ColorOfPermissionSet | hypergraph.py:68-73 | a set's label has a bright colour exactly for four sets: rw blue, r orange, rx green, rwx red |
| PermissionHypergraph.ScenarioGrantsRoot | hypergraph.py:46-55 | the scenario already grants Root {r, w, x} on all four filesystems, so the override changes nothing |
| PermissionHypergraph.ScenarioSets | hypergraph.py:33-50 | the scenario uses exactly six distinct permission sets |
| PermissionHypergraph.CreatePermissionHypergraph | hypergraph.py:26-76 | the override leaves the scenario unchanged; the grouping yields six hyperedges that satisfy the grouping property; the colours are the default-grey lookup |

## Left out

- Randomness. Every `random.choice`, `random.choices`, `random.sample`,
  `random.randint` and `random.random()` draw is an input, and its
  precondition is the draw's range. The 30 % branch of
  `ngac-hypergraph-fn-fr.py` is the `truth` input: a class when the branch
  fires, none otherwise.
- The crash cases of the draws. `random.choice` on an empty list raises an
  error, and so does a permission loop that reads the leaked `resource`
  after a loop that bound nothing. These become preconditions of the
  inputs, for example "a permission needs a resource", and are not a
  modelled error value.
- Timing, the `run_*_simulation` sweeps over `log_ranges`, repetitions, the
  CSV files and the `__main__` blocks are I/O and measurement. A run is
  modelled once, for one set of inputs.
- The `num_user_attributes` and `num_resource_attributes` parameters of the
  NGAC generators are never read, so they have no counterpart.
- The `users` attribute records of `abac-dag.py` and `pam-abac.py`
  (`JobTitle`) are never read after they are drawn, so they are not
  modelled. The `nodes` set of the hypergraph builders is filled but never
  used, and it is not modelled either.
- Floats. `path_complexity`, `detection_accuracy`, `fpr` and `fnr` are exact
  reals.
- Node names. Nodes are datatype labels, not strings. In the hypergraphs,
  `Labels.RenderInjective` shows that the printed names are distinct, and
  the substring tests are proved equal to constructor tests. Edge keys are a
  datatype carrying the counter value.
- hypernetx and networkx internals are re-defined over maps and sets. The
  hypergraph is a map from edge keys to member sets; its nodes are the
  union of the members; the membership index is the derived map.
  `nx.descendants` and `nx.shortest_path_length` are `Reachability.Bfs`.
- Iteration order of sets and dicts. Which chain, class or hyperedge ends
  up stored for a node depends on it, so the model promises only some
  matching one. This covers the last-match-wins `break`, and the grouping
  in `hypergraph.py` is proved for every order.
- Permission letters in `hypergraph.py` are characters, and a permission
  set is a `set<char>`.
- `hypergraph.py` plotting (lines 78-135), `nx.spring_layout`, and
  `create_sample_hypergraph` (lines 10-24) are only library calls and
  prints. The `users` and `filesystems` lists are used only for plotting and
  for the override loop; the latter is modelled.
- The global `traversal_count` is a returned counter.
- DiGraphs.DiGraph.AddNode: replaces a node's attribute record, where
  networkx `add_node` merges the new attributes into the old ones. No result
  differs: the only nodes added again are the shared attribute nodes of
  `ngac-dag-full-model.py` lines 37 and 44 and the duplicate permission
  strings of line 48, and each of those calls sets only `type`, so
  replacing and merging leave the same record.
- NgacDagDetector.RunNgacDag: graph size is stated as the number of
  generated nodes plus the number of DAG edges, not in closed form. The
  attribute nodes are shared, so their number depends on which values were
  drawn.
- HypergraphRuns.RunGroundTruth: graph size is stated through the node set
  of the generated hypergraph plus the edge count, not in closed form.
- HypergraphRuns.RunFixed: graph size is stated the same way as in
  RunGroundTruth.
- HypergraphRuns.RunFnFr: graph size is stated the same way as in
  RunGroundTruth.
- AbacDetector.RunAbacDag: does not state the traversal count of a run.
  `AbacDetector.DetectPrivilegeEscalation` states it for any graph.
