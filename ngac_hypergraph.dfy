/** `generate_ngac_model` of the three ngac-hypergraph files: an `edges` dict
    filled in loops, every entry under a key built from one running counter,
    then `hnx.Hypergraph(edges)`. The hypergraph is modelled as the map from
    edge keys to member sets. */
module NgacHypergraph {
  import opened Domain
  import opened Labels

  /** `f"Edge_User_{n}"`, `f"Edge_{n}"` and `f"Edge_Truth_{n}"`. */
  datatype EdgeKey =
    | UserEdge(n: nat)
    | AttrEdge(n: nat)
    | TruthEdge(n: nat)

  /** The prefix an insertion writes its key with. */
  datatype Tag = UserTag | AttrTag | TruthTag

  function KeyOf(t: Tag, n: nat): (k: EdgeKey)
    ensures k.n == n
  {
    match t
    case UserTag => UserEdge(n)
    case AttrTag => AttrEdge(n)
    case TruthTag => TruthEdge(n)
  }

  type Hypergraph = map<EdgeKey, set<Label>>

  /** One insertion into `edges`: the key prefix and the member set. */
  type Entry = (Tag, set<Label>)

  /** The dict after the insertions `es`, the n-th one under counter value n. */
  function ToMap(es: seq<Entry>): Hypergraph
  {
    if es == [] then map[]
    else ToMap(es[..|es| - 1])[KeyOf(es[|es| - 1].0, |es| - 1) := es[|es| - 1].1]
  }

  /** The inputs of one generation: the records, the permission list, and
      every random draw of the user loop. `truth[i]` is the class injected
      for user i (fn-fr only: the draw `random.random() < 0.3` succeeded and
      `selected_policy_class` was drawn); the other two files draw none. */
  datatype Inputs = Inputs(
    users: seq<UserData>,
    resources: seq<ResData>,
    permissions: seq<Permission>,
    permChoice: seq<nat>,
    resChoice: seq<nat>,
    truth: seq<Option<PolicyClass>>)
  {
    /** The draws `random.choice` can make. A user needs a permission and a
        resource to draw from, and a permission loop needs the resource
        variable the resource loops leave behind. */
    predicate Valid()
    {
      && |permChoice| == |users| && |resChoice| == |users| && |truth| == |users|
      && (forall i :: 0 <= i < |users| ==> permChoice[i] < |permissions|)
      && (forall i :: 0 <= i < |users| ==> resChoice[i] < |resources|)
      && (|permissions| > 0 ==> |resources| > 0)
    }

    /** No ground-truth injection: the inputs of the other two files. */
    predicate NoTruth()
    {
      forall i :: 0 <= i < |truth| ==> truth[i].None?
    }
  }

  // ---------------------------------------------------------------------------
  // What the loops insert, in order
  // ---------------------------------------------------------------------------

  /** `{user, selected_permission, selected_resource}`. */
  function UserTriple(m: Inputs, i: nat): set<Label>
    requires m.Valid() && i < |m.users|
  {
    {User(i), Perm(m.permissions[m.permChoice[i]]), Resource(m.resChoice[i])}
  }

  /** `{user, selected_policy_class}` when the injection fires. */
  function TruthEntries(i: nat, t: Option<PolicyClass>): seq<Entry>
  {
    if t.Some? then [(TruthTag, {User(i), PC(t.value)})] else []
  }

  /** `{user, attribute_node}` for each item of the user's record. */
  function UserAttrEntries(i: nat, items: seq<(UserKey, UserValue)>): seq<Entry>
  {
    seq(|items|, n requires 0 <= n < |items| => (AttrTag, {User(i), UserAttr(i, items[n].0, items[n].1)}))
  }

  /** Everything one turn of the user loop inserts. */
  function UserBlock(m: Inputs, i: nat): seq<Entry>
    requires m.Valid() && i < |m.users|
  {
    [(UserTag, UserTriple(m, i))] + TruthEntries(i, m.truth[i]) + UserAttrEntries(i, m.users[i].Items())
  }

  function UserEntries(m: Inputs, n: nat): seq<Entry>
    requires m.Valid() && n <= |m.users|
  {
    if n == 0 then [] else UserEntries(m, n - 1) + UserBlock(m, n - 1)
  }

  /** `{attribute_node, resource}` for each item of resource j's record. */
  function ResAttrEntries(j: nat, items: seq<(ResKey, ResValue)>): seq<Entry>
  {
    seq(|items|, n requires 0 <= n < |items| => (AttrTag, {ResAttr(j, items[n].0, items[n].1), Resource(j)}))
  }

  function ResEntries(resources: seq<ResData>, n: nat): seq<Entry>
    requires n <= |resources|
  {
    if n == 0 then [] else ResEntries(resources, n - 1) + ResAttrEntries(n - 1, resources[n - 1].Items())
  }

  /** `{permission, resource}` for every resource. */
  function FanEntries(p: Permission, numResources: nat): seq<Entry>
  {
    seq(numResources, j requires 0 <= j < numResources => (AttrTag, {Perm(p), Resource(j)}))
  }

  /** `{resource, policy_class}` for every class, where `resource` is the
      variable the loop before it leaves behind: always the same resource. */
  function ClassEntries(last: nat): seq<Entry>
  {
    seq(|PolicyClasses|, c requires 0 <= c < |PolicyClasses| => (AttrTag, {Resource(last), PC(PolicyClasses[c])}))
  }

  function PermEntries(permissions: seq<Permission>, numResources: nat, n: nat): seq<Entry>
    requires n <= |permissions| && (n > 0 ==> numResources > 0)
  {
    if n == 0 then []
    else PermEntries(permissions, numResources, n - 1)
         + FanEntries(permissions[n - 1], numResources) + ClassEntries(numResources - 1)
  }

  /** Every insertion of `generate_ngac_model`, in order. */
  function AllEntries(m: Inputs): seq<Entry>
    requires m.Valid()
  {
    UserEntries(m, |m.users|) + ResEntries(m.resources, |m.resources|)
      + PermEntries(m.permissions, |m.resources|, |m.permissions|)
  }

  /** The number of injected ground-truth paths. */
  function TruthCount(truth: seq<Option<PolicyClass>>): nat
  {
    if truth == [] then 0 else TruthCount(truth[..|truth| - 1]) + (if truth[|truth| - 1].Some? then 1 else 0)
  }

  /** `ground_truth_paths` after the first n users: each injected user
      mapped to the class its path leads to. */
  function TruthPaths(truth: seq<Option<PolicyClass>>, n: nat): map<Label, PolicyClass>
    requires n <= |truth|
  {
    if n == 0 then map[]
    else if truth[n - 1].Some? then TruthPaths(truth, n - 1)[User(n - 1) := truth[n - 1].value]
    else TruthPaths(truth, n - 1)
  }

  /** The ground truth holds exactly the users whose injection fired, with
      the class drawn for each, one per injected path. */
  lemma {:induction false} TruthPathsMeaning(truth: seq<Option<PolicyClass>>, n: nat)
    requires n <= |truth|
    ensures forall l :: l in TruthPaths(truth, n) <==> l.User? && l.i < n && truth[l.i].Some?
    ensures forall l :: l in TruthPaths(truth, n) ==> TruthPaths(truth, n)[l] == truth[l.i].value
    ensures |TruthPaths(truth, n)| == TruthCount(truth[..n])
  {
    if n > 0 {
      TruthPathsMeaning(truth, n - 1);
      assert truth[..n][..n - 1] == truth[..n - 1];
    }
  }

  // ---------------------------------------------------------------------------
  // The counter keeps the keys apart
  // ---------------------------------------------------------------------------

  lemma ToMapStep(es: seq<Entry>, e: Entry)
    ensures ToMap(es + [e]) == ToMap(es)[KeyOf(e.0, |es|) := e.1]
  {
    assert (es + [e])[..|es|] == es;
  }

  /** Every insertion lands under a fresh key: the dict holds one entry per
      insertion, the n-th under counter value n. */
  lemma {:induction false} ToMapMeaning(es: seq<Entry>)
    ensures forall k :: k in ToMap(es) <==> k.n < |es| && k == KeyOf(es[k.n].0, k.n)
    ensures forall k :: k in ToMap(es) ==> ToMap(es)[k] == es[k.n].1
    ensures |ToMap(es)| == |es|
  {
    if es != [] {
      var prev := es[..|es| - 1];
      ToMapMeaning(prev);
      assert KeyOf(es[|es| - 1].0, |es| - 1) !in ToMap(prev);
    }
  }

  lemma Associative(a: seq<Entry>, b: seq<Entry>, c: seq<Entry>)
    ensures a + b + c == a + (b + c)
  {
  }

  lemma UserAttrStep(i: nat, items: seq<(UserKey, UserValue)>, k: nat)
    requires k < |items|
    ensures UserAttrEntries(i, items[..k + 1])
         == UserAttrEntries(i, items[..k]) + [(AttrTag, {User(i), UserAttr(i, items[k].0, items[k].1)})]
  {
  }

  lemma ResAttrStep(j: nat, items: seq<(ResKey, ResValue)>, k: nat)
    requires k < |items|
    ensures ResAttrEntries(j, items[..k + 1])
         == ResAttrEntries(j, items[..k]) + [(AttrTag, {ResAttr(j, items[k].0, items[k].1), Resource(j)})]
  {
  }

  /** The edge count: three per user, one per injected path, three per
      resource, and `R + 5` per permission drawn (repeats included). */
  lemma {:induction false} UserEntriesLength(m: Inputs, n: nat)
    requires m.Valid() && n <= |m.users|
    ensures |UserEntries(m, n)| == 3 * n + TruthCount(m.truth[..n])
  {
    if n > 0 {
      UserEntriesLength(m, n - 1);
      assert m.truth[..n][..n - 1] == m.truth[..n - 1];
    }
  }

  lemma {:induction false} ResEntriesLength(resources: seq<ResData>, n: nat)
    requires n <= |resources|
    ensures |ResEntries(resources, n)| == 3 * n
  {
    if n > 0 {
      ResEntriesLength(resources, n - 1);
    }
  }

  lemma {:induction false} PermEntriesLength(permissions: seq<Permission>, numResources: nat, n: nat)
    requires n <= |permissions| && (n > 0 ==> numResources > 0)
    ensures |PermEntries(permissions, numResources, n)| == n * (numResources + 5)
  {
    if n > 0 {
      PermEntriesLength(permissions, numResources, n - 1);
    }
  }

  lemma EdgeCount(m: Inputs)
    requires m.Valid()
    ensures |ToMap(AllEntries(m))| == |AllEntries(m)|
    ensures |AllEntries(m)|
         == 3 * |m.users| + TruthCount(m.truth) + 3 * |m.resources| + |m.permissions| * (|m.resources| + 5)
  {
    ToMapMeaning(AllEntries(m));
    UserEntriesLength(m, |m.users|);
    assert m.truth[..|m.users|] == m.truth;
    ResEntriesLength(m.resources, |m.resources|);
    PermEntriesLength(m.permissions, |m.resources|, |m.permissions|);
  }

  // ---------------------------------------------------------------------------
  // The generation loops
  // ---------------------------------------------------------------------------

  /** `edges[key] = members; edge_count += 1`. */
  method Insert(edges: Hypergraph, count: nat, ghost done: seq<Entry>, t: Tag, members: set<Label>)
    returns (edges': Hypergraph, count': nat)
    requires edges == ToMap(done) && count == |done|
    ensures edges' == ToMap(done + [(t, members)]) && count' == |done| + 1
  {
    ToMapStep(done, (t, members));
    edges' := edges[KeyOf(t, count) := members];
    count' := count + 1;
  }

  /** Lines 48-52 (ground-truth): one `{user, attribute_node}` per item. */
  method AddUserAttributes(i: nat, items: seq<(UserKey, UserValue)>,
                           edges: Hypergraph, count: nat, ghost done: seq<Entry>)
    returns (edges': Hypergraph, count': nat)
    requires edges == ToMap(done) && count == |done|
    ensures edges' == ToMap(done + UserAttrEntries(i, items)) && count' == |done| + |items|
  {
    edges', count' := edges, count;
    ghost var sofar := done;
    assert UserAttrEntries(i, items[..0]) == [];
    for k := 0 to |items|
      invariant sofar == done + UserAttrEntries(i, items[..k])
      invariant edges' == ToMap(sofar) && count' == |sofar|
    {
      var e: Entry := (AttrTag, {User(i), UserAttr(i, items[k].0, items[k].1)});
      UserAttrStep(i, items, k);
      edges', count' := Insert(edges', count', sofar, e.0, e.1);
      sofar := sofar + [e];
    }
    assert items[..|items|] == items;
  }

  /** One turn of the user loop, lines 39-52 (ground-truth), with the
      injection of fn-fr lines 50-54: the `Edge_User` triple, the optional
      truth edge, then the attributes. */
  method AddUser(m: Inputs, i: nat, edges: Hypergraph, count: nat, truth: map<Label, PolicyClass>, ghost base: seq<Entry>)
    returns (edges': Hypergraph, count': nat, truth': map<Label, PolicyClass>)
    requires m.Valid() && i < |m.users|
    requires edges == ToMap(base + UserEntries(m, i)) && count == |base + UserEntries(m, i)|
    ensures edges' == ToMap(base + UserEntries(m, i + 1)) && count' == |base + UserEntries(m, i + 1)|
    ensures truth' == if m.truth[i].Some? then truth[User(i) := m.truth[i].value] else truth
  {
    truth' := truth;
    ghost var done := base + UserEntries(m, i);
    var selected := {User(i), Perm(m.permissions[m.permChoice[i]]), Resource(m.resChoice[i])};
    edges', count' := Insert(edges, count, done, UserTag, selected);
    ghost var sofar := done + [(UserTag, selected)];
    if m.truth[i].Some? {
      var e: Entry := (TruthTag, {User(i), PC(m.truth[i].value)});
      edges', count' := Insert(edges', count', sofar, e.0, e.1);
      truth' := truth'[User(i) := m.truth[i].value];
      sofar := sofar + [e];
    }
    ghost var head := [(UserTag, UserTriple(m, i))] + TruthEntries(i, m.truth[i]);
    assert sofar == done + head;
    edges', count' := AddUserAttributes(i, m.users[i].Items(), edges', count', sofar);
    ghost var attrs := UserAttrEntries(i, m.users[i].Items());
    Associative(done, head, attrs);
    Associative(base, UserEntries(m, i), UserBlock(m, i));
  }

  method AddUsers(m: Inputs, edges: Hypergraph, count: nat, ghost done: seq<Entry>)
    returns (edges': Hypergraph, count': nat, truth: map<Label, PolicyClass>)
    requires m.Valid()
    requires edges == ToMap(done) && count == |done|
    ensures edges' == ToMap(done + UserEntries(m, |m.users|))
    ensures count' == |done + UserEntries(m, |m.users|)|
    ensures truth == TruthPaths(m.truth, |m.users|)
  {
    edges', count', truth := edges, count, map[];
    assert done + UserEntries(m, 0) == done;
    for i := 0 to |m.users|
      invariant edges' == ToMap(done + UserEntries(m, i)) && count' == |done + UserEntries(m, i)|
      invariant truth == TruthPaths(m.truth, i)
    {
      edges', count', truth := AddUser(m, i, edges', count', truth, done);
    }
  }

  /** Lines 55-61 (ground-truth): one `{attribute_node, resource}` per item. */
  method AddResourceAttributes(j: nat, items: seq<(ResKey, ResValue)>,
                               edges: Hypergraph, count: nat, ghost done: seq<Entry>)
    returns (edges': Hypergraph, count': nat)
    requires edges == ToMap(done) && count == |done|
    ensures edges' == ToMap(done + ResAttrEntries(j, items)) && count' == |done| + |items|
  {
    edges', count' := edges, count;
    ghost var sofar := done;
    assert ResAttrEntries(j, items[..0]) == [];
    for k := 0 to |items|
      invariant sofar == done + ResAttrEntries(j, items[..k])
      invariant edges' == ToMap(sofar) && count' == |sofar|
    {
      var e: Entry := (AttrTag, {ResAttr(j, items[k].0, items[k].1), Resource(j)});
      ResAttrStep(j, items, k);
      edges', count' := Insert(edges', count', sofar, e.0, e.1);
      sofar := sofar + [e];
    }
    assert items[..|items|] == items;
  }

  method AddResources(resources: seq<ResData>, edges: Hypergraph, count: nat, ghost done: seq<Entry>)
    returns (edges': Hypergraph, count': nat)
    requires edges == ToMap(done) && count == |done|
    ensures edges' == ToMap(done + ResEntries(resources, |resources|))
    ensures count' == |done + ResEntries(resources, |resources|)|
  {
    edges', count' := edges, count;
    ghost var sofar := done;
    for j := 0 to |resources|
      invariant sofar == done + ResEntries(resources, j)
      invariant edges' == ToMap(sofar) && count' == |sofar|
    {
      edges', count' := AddResourceAttributes(j, resources[j].Items(), edges', count', sofar);
      Associative(done, ResEntries(resources, j), ResAttrEntries(j, resources[j].Items()));
      sofar := sofar + ResAttrEntries(j, resources[j].Items());
    }
  }

  /** Lines 66-68 (ground-truth): `{permission, resource}` for every
      resource. Also returns the loop variable it leaves behind. */
  method AddFan(p: Permission, numResources: nat, edges: Hypergraph, count: nat, ghost done: seq<Entry>)
    returns (edges': Hypergraph, count': nat, resource: nat)
    requires numResources > 0
    requires edges == ToMap(done) && count == |done|
    ensures edges' == ToMap(done + FanEntries(p, numResources)) && count' == |done| + numResources
    ensures resource == numResources - 1
  {
    edges', count' := edges, count;
    resource := 0;
    ghost var sofar := done;
    for j := 0 to numResources
      invariant sofar == done + FanEntries(p, numResources)[..j]
      invariant edges' == ToMap(sofar) && count' == |sofar|
      invariant j > 0 ==> resource == j - 1
    {
      var e: Entry := (AttrTag, {Perm(p), Resource(j)});
      assert FanEntries(p, numResources)[..j + 1] == FanEntries(p, numResources)[..j] + [e];
      edges', count' := Insert(edges', count', sofar, e.0, e.1);
      sofar := sofar + [e];
      resource := j;
    }
    assert FanEntries(p, numResources)[..numResources] == FanEntries(p, numResources);
  }

  /** Lines 69-71 (ground-truth): `{resource, policy_class}` for every class. */
  method AddClasses(resource: nat, edges: Hypergraph, count: nat, ghost done: seq<Entry>)
    returns (edges': Hypergraph, count': nat)
    requires edges == ToMap(done) && count == |done|
    ensures edges' == ToMap(done + ClassEntries(resource)) && count' == |done| + |PolicyClasses|
  {
    edges', count' := edges, count;
    ghost var sofar := done;
    for c := 0 to |PolicyClasses|
      invariant sofar == done + ClassEntries(resource)[..c]
      invariant edges' == ToMap(sofar) && count' == |sofar|
    {
      var e: Entry := (AttrTag, {Resource(resource), PC(PolicyClasses[c])});
      assert ClassEntries(resource)[..c + 1] == ClassEntries(resource)[..c] + [e];
      edges', count' := Insert(edges', count', sofar, e.0, e.1);
      sofar := sofar + [e];
    }
    assert ClassEntries(resource)[..|PolicyClasses|] == ClassEntries(resource);
  }

  method AddPermissions(permissions: seq<Permission>, numResources: nat,
                        edges: Hypergraph, count: nat, ghost done: seq<Entry>)
    returns (edges': Hypergraph, count': nat)
    requires |permissions| > 0 ==> numResources > 0
    requires edges == ToMap(done) && count == |done|
    ensures edges' == ToMap(done + PermEntries(permissions, numResources, |permissions|))
    ensures count' == |done + PermEntries(permissions, numResources, |permissions|)|
  {
    edges', count' := edges, count;
    ghost var sofar := done;
    for n := 0 to |permissions|
      invariant sofar == done + PermEntries(permissions, numResources, n)
      invariant edges' == ToMap(sofar) && count' == |sofar|
    {
      var resource: nat;
      edges', count', resource := AddFan(permissions[n], numResources, edges', count', sofar);
      sofar := sofar + FanEntries(permissions[n], numResources);
      edges', count' := AddClasses(resource, edges', count', sofar);
      sofar := sofar + ClassEntries(resource);
      Associative(done, PermEntries(permissions, numResources, n), FanEntries(permissions[n], numResources));
      Associative(done, PermEntries(permissions, numResources, n) + FanEntries(permissions[n], numResources),
                  ClassEntries(resource));
    }
  }

  /** `generate_ngac_model`: the hypergraph holds exactly the insertions of
      the three loops, each under its own counter value. */
  method GenerateHypergraph(m: Inputs) returns (H: Hypergraph, edgeCount: nat, truth: map<Label, PolicyClass>)
    requires m.Valid()
    ensures H == ToMap(AllEntries(m))
    ensures edgeCount == |H|
      == 3 * |m.users| + TruthCount(m.truth) + 3 * |m.resources| + |m.permissions| * (|m.resources| + 5)
    ensures truth == TruthPaths(m.truth, |m.users|)
  {
    H, edgeCount := map[], 0;
    H, edgeCount, truth := AddUsers(m, H, edgeCount, []);
    ghost var done := UserEntries(m, |m.users|);
    assert [] + done == done;
    H, edgeCount := AddResources(m.resources, H, edgeCount, done);
    done := done + ResEntries(m.resources, |m.resources|);
    H, edgeCount := AddPermissions(m.permissions, |m.resources|, H, edgeCount, done);
    EdgeCount(m);
  }
}
