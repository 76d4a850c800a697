/** What the three ngac-hypergraph detectors report on the hypergraph
    their own generator builds: which nodes get a path, how many traversals
    are counted, the scores and `graph_size`. */
module HypergraphRuns {
  import opened Domain
  import opened Labels
  import opened NgacHypergraph
  import opened HypergraphDetector
  import Scoring

  // ---------------------------------------------------------------------------
  // Counting hits on the list of insertions
  // ---------------------------------------------------------------------------

  /** What is being counted: the hyperedges through one node, or the
      traversals of one pass. */
  datatype Tally = Through(l: Label) | PairsOf(scan: Scan)

  /** The members of a hyperedge one pass starts from. */
  ghost function SelectedIn(scan: Scan, members: set<Label>): set<Label>
  {
    set x | x in members && Selected(scan, x)
  }

  /** What one hyperedge adds to a tally. */
  ghost function Weight(t: Tally, members: set<Label>): nat
  {
    if !HasClass(members) then 0
    else match t
      case Through(l) => if l in members then 1 else 0
      case PairsOf(scan) => |SelectedIn(scan, members)|
  }

  ghost function Total(es: seq<Entry>, t: Tally): nat
  {
    if es == [] then 0 else Total(es[..|es| - 1], t) + Weight(t, es[|es| - 1].1)
  }

  lemma {:induction false} TotalConcat(a: seq<Entry>, b: seq<Entry>, t: Tally)
    ensures Total(a + b, t) == Total(a, t) + Total(b, t)
  {
    if b != [] {
      TotalConcat(a, b[..|b| - 1], t);
      assert (a + b)[..|a + b| - 1] == a + b[..|b| - 1];
    } else {
      assert a + b == a;
    }
  }

  /** A list whose every hyperedge weighs `w` totals `w` per hyperedge. */
  lemma {:induction false} TotalConstant(es: seq<Entry>, t: Tally, w: nat)
    requires forall j :: 0 <= j < |es| ==> Weight(t, es[j].1) == w
    ensures Total(es, t) == w * |es|
  {
    if es != [] {
      TotalConstant(es[..|es| - 1], t, w);
    }
  }

  // ---------------------------------------------------------------------------
  // From the dict to the list and back
  // ---------------------------------------------------------------------------

  /** The hits through a node of the built hypergraph are its hyperedges
      with a policy class, whatever their keys. */
  lemma {:induction false} HitKeysCount(es: seq<Entry>, l: Label)
    ensures |HitKeys(ToMap(es), l)| == Total(es, Through(l))
  {
    if es != [] {
      var prev := es[..|es| - 1];
      var e := es[|es| - 1];
      var key := KeyOf(e.0, |prev|);
      HitKeysCount(prev, l);
      ToMapMeaning(prev);
      assert key !in ToMap(prev);
      var H := ToMap(es);
      assert H == ToMap(prev)[key := e.1];
      if l in e.1 && HasClass(e.1) {
        assert HitKeys(H, l) == HitKeys(ToMap(prev), l) + {key};
      } else {
        assert HitKeys(H, l) == HitKeys(ToMap(prev), l);
      }
    }
  }

  lemma HitsMeaning(H: Hypergraph, scan: Scan)
    ensures forall x, k :: (x, k) in Hits(H, scan) <==> k in H && x in H[k] && Selected(scan, x) && HasClass(H[k])
  {
    forall x, k | k in H && x in H[k]
      ensures x in Nodes(H)
    {
    }
  }

  /** Pairing each member with one key keeps the count. */
  lemma {:induction false} PairsCardLeft(S: set<Label>, k: EdgeKey)
    ensures |set x | x in S :: (x, k)| == |S|
  {
    if S != {} {
      var x :| x in S;
      PairsCardLeft(S - {x}, k);
      assert (set y | y in S :: (y, k)) == (set y | y in S - {x} :: (y, k)) + {(x, k)};
    }
  }

  lemma HitsSplit(H0: Hypergraph, key: EdgeKey, members: set<Label>, scan: Scan)
    requires key !in H0
    ensures Hits(H0[key := members], scan)
         == Hits(H0, scan) + (if HasClass(members) then set x | x in SelectedIn(scan, members) :: (x, key) else {})
  {
    var H := H0[key := members];
    HitsMeaning(H0, scan);
    HitsMeaning(H, scan);
  }

  lemma HitsStep(prev: seq<Entry>, e: Entry, scan: Scan)
    ensures |Hits(ToMap(prev + [e]), scan)| == |Hits(ToMap(prev), scan)| + Weight(PairsOf(scan), e.1)
  {
    var key := KeyOf(e.0, |prev|);
    ToMapMeaning(prev);
    ToMapStep(prev, e);
    var H0 := ToMap(prev);
    assert key !in H0;
    HitsSplit(H0, key, e.1, scan);
    if HasClass(e.1) {
      var added := set x | x in SelectedIn(scan, e.1) :: (x, key);
      HitsMeaning(H0, scan);
      assert Hits(H0, scan) !! added;
      PairsCardLeft(SelectedIn(scan, e.1), key);
    }
  }

  /** The traversals of a pass over the built hypergraph. */
  lemma {:induction false} HitsCount(es: seq<Entry>, scan: Scan)
    ensures |Hits(ToMap(es), scan)| == Total(es, PairsOf(scan))
  {
    if es == [] {
      HitsMeaning(ToMap(es), scan);
      assert Hits(ToMap(es), scan) == {};
    } else {
      var prev := es[..|es| - 1];
      HitsCount(prev, scan);
      assert prev + [es[|es| - 1]] == es;
      HitsStep(prev, es[|es| - 1], scan);
    }
  }

  /** A node appears in the paths of a pass exactly when the name test
      selects it and some hyperedge through it holds a policy class. */
  lemma FlaggedMeaning(H: Hypergraph, scan: Scan, l: Label)
    ensures l in Flagged(H, scan) <==> Selected(scan, l) && HitKeys(H, l) != {}
  {
    HitsAreNodes(H, l);
  }

  // ---------------------------------------------------------------------------
  // What each loop of the generator contributes
  // ---------------------------------------------------------------------------

  /** Hyperedges without a policy class weigh nothing. */
  lemma NoClassTotal(es: seq<Entry>, t: Tally)
    requires forall j :: 0 <= j < |es| ==> !HasClass(es[j].1)
    ensures Total(es, t) == 0
  {
    TotalConstant(es, t, 0);
  }

  lemma UserAttrsNoClass(i: nat, items: seq<(UserKey, UserValue)>)
    ensures forall j :: 0 <= j < |UserAttrEntries(i, items)| ==> !HasClass(UserAttrEntries(i, items)[j].1)
  {
  }

  lemma ResAttrsNoClass(j: nat, items: seq<(ResKey, ResValue)>)
    ensures forall n :: 0 <= n < |ResAttrEntries(j, items)| ==> !HasClass(ResAttrEntries(j, items)[n].1)
  {
  }

  lemma FanNoClass(p: Permission, numResources: nat)
    ensures forall j :: 0 <= j < |FanEntries(p, numResources)| ==> !HasClass(FanEntries(p, numResources)[j].1)
  {
  }

  /** Only the injected `{user, policy_class}` hyperedge of a user's turn
      reaches a class. */
  lemma UserBlockTotal(m: Inputs, i: nat, t: Tally)
    requires m.Valid() && i < |m.users|
    ensures Total(UserBlock(m, i), t) == Total(TruthEntries(i, m.truth[i]), t)
  {
    var triple: seq<Entry> := [(UserTag, UserTriple(m, i))];
    assert !HasClass(UserTriple(m, i));
    NoClassTotal(triple, t);
    UserAttrsNoClass(i, m.users[i].Items());
    NoClassTotal(UserAttrEntries(i, m.users[i].Items()), t);
    TotalConcat(triple, TruthEntries(i, m.truth[i]), t);
    TotalConcat(triple + TruthEntries(i, m.truth[i]), UserAttrEntries(i, m.users[i].Items()), t);
  }

  lemma TruthEntryWeights(i: nat, c: PolicyClass, l: Label)
    requires !l.PC?
    ensures Weight(Through(l), {User(i), PC(c)}) == if l == User(i) then 1 else 0
    ensures Weight(PairsOf(UserScan), {User(i), PC(c)}) == 1
    ensures Weight(PairsOf(ResourceScan), {User(i), PC(c)}) == 0
  {
    assert HasClass({User(i), PC(c)}) by { assert PC(c) in {User(i), PC(c)}; }
    assert SelectedIn(UserScan, {User(i), PC(c)}) == {User(i)};
    assert SelectedIn(ResourceScan, {User(i), PC(c)}) == {};
  }

  /** The injected hyperedge of one user, if any. */
  lemma TruthTotal(i: nat, o: Option<PolicyClass>, t: Tally)
    ensures Total(TruthEntries(i, o), t) == if o.Some? then Weight(t, {User(i), PC(o.value)}) else 0
  {
    if o.Some? {
      assert TruthEntries(i, o)[..0] == [];
    }
  }

  /** One more turn of the user loop adds the weight of its injected
      hyperedge, if any. */
  lemma UserEntriesStep(m: Inputs, n: nat, t: Tally)
    requires m.Valid() && 0 < n <= |m.users|
    ensures Total(UserEntries(m, n), t)
         == Total(UserEntries(m, n - 1), t)
            + (if m.truth[n - 1].Some? then Weight(t, {User(n - 1), PC(m.truth[n - 1].value)}) else 0)
  {
    TotalConcat(UserEntries(m, n - 1), UserBlock(m, n - 1), t);
    UserBlockTotal(m, n - 1, t);
    TruthTotal(n - 1, m.truth[n - 1], t);
  }

  lemma {:induction false} UserPairs(m: Inputs, n: nat)
    requires m.Valid() && n <= |m.users|
    ensures Total(UserEntries(m, n), PairsOf(UserScan)) == TruthCount(m.truth[..n])
  {
    if n > 0 {
      UserPairs(m, n - 1);
      UserEntriesStep(m, n, PairsOf(UserScan));
      assert m.truth[..n][..n - 1] == m.truth[..n - 1];
      if m.truth[n - 1].Some? {
        TruthEntryWeights(n - 1, m.truth[n - 1].value, User(0));
      }
    }
  }

  lemma {:induction false} UserResourcePairs(m: Inputs, n: nat)
    requires m.Valid() && n <= |m.users|
    ensures Total(UserEntries(m, n), PairsOf(ResourceScan)) == 0
  {
    if n > 0 {
      UserResourcePairs(m, n - 1);
      UserEntriesStep(m, n, PairsOf(ResourceScan));
      if m.truth[n - 1].Some? {
        TruthEntryWeights(n - 1, m.truth[n - 1].value, User(0));
      }
    }
  }

  lemma {:induction false} UserThrough(m: Inputs, n: nat, l: Label)
    requires m.Valid() && n <= |m.users| && !l.PC?
    ensures Total(UserEntries(m, n), Through(l)) == if l.User? && l.i < n && m.truth[l.i].Some? then 1 else 0
  {
    if n > 0 {
      UserThrough(m, n - 1, l);
      UserEntriesStep(m, n, Through(l));
      if m.truth[n - 1].Some? {
        TruthEntryWeights(n - 1, m.truth[n - 1].value, l);
      }
    }
  }

  lemma {:induction false} ResourcesTotal(resources: seq<ResData>, n: nat, t: Tally)
    requires n <= |resources|
    ensures Total(ResEntries(resources, n), t) == 0
  {
    if n > 0 {
      ResourcesTotal(resources, n - 1, t);
      ResAttrsNoClass(n - 1, resources[n - 1].Items());
      NoClassTotal(ResAttrEntries(n - 1, resources[n - 1].Items()), t);
      TotalConcat(ResEntries(resources, n - 1), ResAttrEntries(n - 1, resources[n - 1].Items()), t);
    }
  }

  /** Each `{resource, policy_class}` hyperedge: one hit, on the leftover resource. */
  lemma ClassEntryWeights(last: nat, t: Tally)
    requires t.Through? ==> !t.l.PC?
    ensures forall c :: 0 <= c < |ClassEntries(last)| ==> Weight(t, ClassEntries(last)[c].1) == ClassWeight(last, t)
  {
    forall c | 0 <= c < |ClassEntries(last)|
      ensures Weight(t, ClassEntries(last)[c].1) == ClassWeight(last, t)
    {
      var pc := PolicyClasses[c];
      assert ClassEntries(last)[c].1 == {Resource(last), PC(pc)};
      assert HasClass({Resource(last), PC(pc)}) by { assert PC(pc) in {Resource(last), PC(pc)}; }
      assert SelectedIn(UserScan, {Resource(last), PC(pc)}) == {};
      assert SelectedIn(ResourceScan, {Resource(last), PC(pc)}) == {Resource(last)};
    }
  }

  ghost function ClassWeight(last: nat, t: Tally): nat
  {
    match t
    case Through(l) => if l == Resource(last) then 1 else 0
    case PairsOf(scan) => if scan == ResourceScan then 1 else 0
  }

  lemma {:induction false} PermissionsTotal(permissions: seq<Permission>, numResources: nat, n: nat, t: Tally)
    requires n <= |permissions| && (n > 0 ==> numResources > 0)
    requires t.Through? ==> !t.l.PC?
    ensures Total(PermEntries(permissions, numResources, n), t)
         == if n == 0 then 0 else 5 * n * ClassWeight(numResources - 1, t)
  {
    if n > 0 {
      PermissionsTotal(permissions, numResources, n - 1, t);
      var fan := FanEntries(permissions[n - 1], numResources);
      var classes := ClassEntries(numResources - 1);
      FanNoClass(permissions[n - 1], numResources);
      NoClassTotal(fan, t);
      ClassEntryWeights(numResources - 1, t);
      TotalConstant(classes, t, ClassWeight(numResources - 1, t));
      TotalConcat(PermEntries(permissions, numResources, n - 1), fan, t);
      TotalConcat(PermEntries(permissions, numResources, n - 1) + fan, classes, t);
    }
  }

  /** The totals over every insertion of the generator. */
  lemma AllTotals(m: Inputs, t: Tally)
    requires m.Valid() && (t.Through? ==> !t.l.PC?)
    ensures Total(AllEntries(m), t)
         == Total(UserEntries(m, |m.users|), t)
            + (if |m.permissions| == 0 then 0 else 5 * |m.permissions| * ClassWeight(|m.resources| - 1, t))
  {
    var U := UserEntries(m, |m.users|);
    var R := ResEntries(m.resources, |m.resources|);
    var P := PermEntries(m.permissions, |m.resources|, |m.permissions|);
    TotalConcat(U, R, t);
    TotalConcat(U + R, P, t);
    ResourcesTotal(m.resources, |m.resources|, t);
    PermissionsTotal(m.permissions, |m.resources|, |m.permissions|, t);
  }

  // ---------------------------------------------------------------------------
  // Which nodes each pass flags on the generated hypergraph
  // ---------------------------------------------------------------------------

  /** The hyperedges with a policy class through a node other than a class. */
  lemma ThroughCount(m: Inputs, l: Label)
    requires m.Valid() && !l.PC?
    ensures |HitKeys(ToMap(AllEntries(m)), l)|
         == (if l.User? && l.i < |m.users| && m.truth[l.i].Some? then 1 else 0)
            + (if |m.permissions| > 0 && l == Resource(|m.resources| - 1) then 5 * |m.permissions| else 0)
  {
    HitKeysCount(AllEntries(m), l);
    AllTotals(m, Through(l));
    UserThrough(m, |m.users|, l);
  }

  /** The user pass flags exactly the users whose ground-truth path was
      injected, one traversal each. */
  lemma UserPass(m: Inputs)
    requires m.Valid()
    ensures Flagged(ToMap(AllEntries(m)), UserScan) == TruthPaths(m.truth, |m.users|).Keys
    ensures |Hits(ToMap(AllEntries(m)), UserScan)| == TruthCount(m.truth)
  {
    UserPassFlagged(m);
    HitsCount(AllEntries(m), UserScan);
    AllTotals(m, PairsOf(UserScan));
    UserPairs(m, |m.users|);
    assert m.truth[..|m.users|] == m.truth;
  }

  lemma UserPassFlagged(m: Inputs)
    requires m.Valid()
    ensures Flagged(ToMap(AllEntries(m)), UserScan) == TruthPaths(m.truth, |m.users|).Keys
  {
    var H := ToMap(AllEntries(m));
    TruthPathsMeaning(m.truth, |m.users|);
    forall l
      ensures l in Flagged(H, UserScan) <==> l in TruthPaths(m.truth, |m.users|)
    {
      UserNodeFlagged(m, H, l);
    }
  }

  lemma UserNodeFlagged(m: Inputs, H: Hypergraph, l: Label)
    requires m.Valid() && H == ToMap(AllEntries(m))
    ensures l in Flagged(H, UserScan) <==> l.User? && l.i < |m.users| && m.truth[l.i].Some?
  {
    FlaggedMeaning(H, UserScan, l);
    if !l.PC? {
      ThroughCount(m, l);
    }
  }

  /** The resource pass flags only the resource the permission loop leaves
      behind, once per class per permission. */
  lemma ResourcePass(m: Inputs)
    requires m.Valid()
    ensures Flagged(ToMap(AllEntries(m)), ResourceScan)
         == if |m.permissions| == 0 then {} else {Resource(|m.resources| - 1)}
    ensures |Hits(ToMap(AllEntries(m)), ResourceScan)| == 5 * |m.permissions|
  {
    ResourcePassFlagged(m);
    HitsCount(AllEntries(m), ResourceScan);
    AllTotals(m, PairsOf(ResourceScan));
    UserResourcePairs(m, |m.users|);
  }

  lemma ResourcePassFlagged(m: Inputs)
    requires m.Valid()
    ensures Flagged(ToMap(AllEntries(m)), ResourceScan)
         == if |m.permissions| == 0 then {} else {Resource(|m.resources| - 1)}
  {
    var H := ToMap(AllEntries(m));
    forall l
      ensures l in Flagged(H, ResourceScan) <==> |m.permissions| > 0 && l == Resource(|m.resources| - 1)
    {
      ResourceNodeFlagged(m, H, l);
    }
  }

  lemma ResourceNodeFlagged(m: Inputs, H: Hypergraph, l: Label)
    requires m.Valid() && H == ToMap(AllEntries(m))
    ensures l in Flagged(H, ResourceScan) <==> |m.permissions| > 0 && l == Resource(|m.resources| - 1)
  {
    FlaggedMeaning(H, ResourceScan, l);
    if !l.PC? {
      ThroughCount(m, l);
    }
  }

  /** No traversal starts from a user outside the ground truth. */
  lemma NoFalsePositives(m: Inputs)
    requires m.Valid()
    ensures HitsIn(ToMap(AllEntries(m)), UserScan, Nodes(ToMap(AllEntries(m))) - TruthPaths(m.truth, |m.users|).Keys) == {}
  {
    var H := ToMap(AllEntries(m));
    var truth := TruthPaths(m.truth, |m.users|).Keys;
    UserPass(m);
    forall x, k | (x, k) in HitsIn(H, UserScan, Nodes(H) - truth)
      ensures false
    {
      FlaggedMeaning(H, UserScan, x);
    }
  }

  /** What both passes find on a hypergraph generated without injection. */
  ghost predicate PassesWithoutTruth(H: Hypergraph, m: Inputs)
    requires m.Valid()
  {
    && Flagged(H, UserScan) == {} && |Hits(H, UserScan)| == 0
    && Flagged(H, ResourceScan) == (if |m.permissions| == 0 then {} else {Resource(|m.resources| - 1)})
    && |Hits(H, ResourceScan)| == 5 * |m.permissions|
  }

  lemma GeneratedWithoutTruth(m: Inputs)
    requires m.Valid() && m.NoTruth()
    ensures TruthPaths(m.truth, |m.users|) == map[]
    ensures PassesWithoutTruth(ToMap(AllEntries(m)), m)
  {
    NoTruthCounts(m);
    UserPass(m);
    ResourcePass(m);
  }

  /** What the user pass finds on a hypergraph whose ground truth is `truth`. */
  ghost predicate PassesWithTruth(H: Hypergraph, truth: map<Label, PolicyClass>)
  {
    && Flagged(H, UserScan) == truth.Keys && |Hits(H, UserScan)| == |truth|
    && HitsIn(H, UserScan, Nodes(H) - truth.Keys) == {}
  }

  lemma GeneratedWithTruth(m: Inputs)
    requires m.Valid()
    ensures |TruthPaths(m.truth, |m.users|)| == TruthCount(m.truth)
    ensures PassesWithTruth(ToMap(AllEntries(m)), TruthPaths(m.truth, |m.users|))
  {
    UserPass(m);
    NoFalsePositives(m);
    TruthPathsMeaning(m.truth, |m.users|);
    assert m.truth[..|m.users|] == m.truth;
  }

  // ---------------------------------------------------------------------------
  // The three runs
  // ---------------------------------------------------------------------------

  /** One repetition of `run_ngac_hypergraph_simulation` in
      ngac-hypergraph-ground-truth.py (lines 151-164): nothing is ever
      injected, so the user pass flags nobody, the resource pass flags the
      leftover resource, and every path it reports is a false positive. */
  method RunGroundTruth(m: Inputs)
    returns (paths: map<Label, set<Label>>, complexity: real, count: nat, fp: nat, fn: nat,
             accuracy: real, graphSize: nat)
    requires m.Valid() && m.NoTruth()
    ensures paths.Keys == if |m.permissions| == 0 then {} else {Resource(|m.resources| - 1)}
    ensures forall x :: x in paths ==> x in paths[x] && HasClass(paths[x])
    ensures count == 5 * |m.permissions|
    ensures complexity == if |m.permissions| == 0 then 0.0 else 1.0
    ensures fp == |paths| && fn == 0
    ensures accuracy == if |m.permissions| == 0 then 0.0 else 1.0 / Scoring.Max1(|m.users|) as real
    ensures graphSize == |Nodes(ToMap(AllEntries(m)))| + 3 * |m.users| + 3 * |m.resources| + |m.permissions| * (|m.resources| + 5)
  {
    var H, edgeCount, truth := GenerateHypergraph(m);
    GeneratedWithoutTruth(m);
    NoTruthCounts(m);
    paths, complexity, count, fp, fn, accuracy := ScoreGroundTruth(H, truth, m);
    graphSize := |Nodes(H)| + edgeCount;
  }

  /** Without injection there is no ground truth and no truth edge. */
  lemma NoTruthCounts(m: Inputs)
    requires m.Valid() && m.NoTruth()
    ensures TruthPaths(m.truth, |m.users|) == map[]
    ensures TruthCount(m.truth) == 0
  {
    TruthPathsMeaning(m.truth, |m.users|);
    assert m.truth[..|m.users|] == m.truth;
  }

  /** Detection and scoring of the ground-truth variant. */
  method ScoreGroundTruth(H: Hypergraph, truth: map<Label, PolicyClass>, m: Inputs)
    returns (paths: map<Label, set<Label>>, complexity: real, count: nat, fp: nat, fn: nat, accuracy: real)
    requires m.Valid() && truth == map[] && PassesWithoutTruth(H, m)
    ensures paths.Keys == if |m.permissions| == 0 then {} else {Resource(|m.resources| - 1)}
    ensures forall x :: x in paths ==> x in paths[x] && HasClass(paths[x])
    ensures count == 5 * |m.permissions|
    ensures complexity == if |m.permissions| == 0 then 0.0 else 1.0
    ensures fp == |paths| && fn == 0
    ensures accuracy == if |m.permissions| == 0 then 0.0 else 1.0 / Scoring.Max1(|m.users|) as real
  {
    paths, complexity, count, fp, fn := DetectGroundTruth(H, truth);
    FromHitRooted(H, paths);
    assert |paths| == |paths.Keys| == if |m.permissions| == 0 then 0 else 1;
    accuracy := Scoring.DetectionAccuracy(|paths|, |m.users|);
  }

  /** One repetition of the simulation in ngac-hypergraph-fixed.py (lines
      138-150): the same paths and counts, scanning every hyperedge. */
  method RunFixed(m: Inputs) returns (paths: map<Label, set<Label>>, complexity: real, count: nat,
                                      accuracy: real, graphSize: nat)
    requires m.Valid() && m.NoTruth()
    ensures paths.Keys == if |m.permissions| == 0 then {} else {Resource(|m.resources| - 1)}
    ensures forall x :: x in paths ==> x in paths[x] && HasClass(paths[x])
    ensures count == 5 * |m.permissions|
    ensures complexity == if |m.permissions| == 0 then 0.0 else 1.0
    ensures accuracy == if |m.permissions| == 0 then 0.0 else 1.0 / Scoring.Max1(|m.users|) as real
    ensures graphSize == |Nodes(ToMap(AllEntries(m)))| + 3 * |m.users| + 3 * |m.resources| + |m.permissions| * (|m.resources| + 5)
  {
    var H, edgeCount, truth := GenerateHypergraph(m);
    GeneratedWithoutTruth(m);
    NoTruthCounts(m);
    paths, complexity, count, accuracy := ScoreFixed(H, m);
    graphSize := |Nodes(H)| + edgeCount;
  }

  /** Detection and scoring of the fixed variant. */
  method ScoreFixed(H: Hypergraph, m: Inputs)
    returns (paths: map<Label, set<Label>>, complexity: real, count: nat, accuracy: real)
    requires m.Valid() && PassesWithoutTruth(H, m)
    ensures paths.Keys == if |m.permissions| == 0 then {} else {Resource(|m.resources| - 1)}
    ensures forall x :: x in paths ==> x in paths[x] && HasClass(paths[x])
    ensures count == 5 * |m.permissions|
    ensures complexity == if |m.permissions| == 0 then 0.0 else 1.0
    ensures accuracy == if |m.permissions| == 0 then 0.0 else 1.0 / Scoring.Max1(|m.users|) as real
  {
    paths, complexity, count := DetectFixed(H);
    FromHitRooted(H, paths);
    assert |paths| == |paths.Keys| == if |m.permissions| == 0 then 0 else 1;
    accuracy := Scoring.DetectionAccuracy(|paths|, |m.users|);
  }

  /** One repetition of the simulation in ngac-hypergraph-fn-fr.py (lines
      138-149): the detector finds exactly the injected paths, so both error
      counts are zero and the accuracy is the injected fraction of users. */
  method RunFnFr(m: Inputs)
    returns (paths: map<Label, set<Label>>, complexity: real, count: nat, fp: nat, fn: nat,
             accuracy: real, graphSize: nat)
    requires m.Valid()
    ensures paths.Keys == TruthPaths(m.truth, |m.users|).Keys
    ensures forall x :: x in paths ==> x in paths[x] && HasClass(paths[x])
    ensures count == TruthCount(m.truth) == |paths|
    ensures complexity == if count == 0 then 0.0 else 1.0
    ensures fp == 0 && fn == 0
    ensures accuracy == TruthCount(m.truth) as real / Scoring.Max1(|m.users|) as real
    ensures graphSize == |Nodes(ToMap(AllEntries(m)))| + 3 * |m.users| + TruthCount(m.truth) + 3 * |m.resources|
                         + |m.permissions| * (|m.resources| + 5)
  {
    var H, edgeCount, truth := GenerateHypergraph(m);
    GeneratedWithTruth(m);
    paths, complexity, count, fp, fn, accuracy := ScoreFnFr(H, truth, m);
    graphSize := |Nodes(H)| + edgeCount;
  }

  /** Detection and scoring of the fn-fr variant. */
  method ScoreFnFr(H: Hypergraph, truth: map<Label, PolicyClass>, m: Inputs)
    returns (paths: map<Label, set<Label>>, complexity: real, count: nat, fp: nat, fn: nat, accuracy: real)
    requires PassesWithTruth(H, truth)
    ensures paths.Keys == truth.Keys
    ensures forall x :: x in paths ==> x in paths[x] && HasClass(paths[x])
    ensures count == |truth| == |paths|
    ensures complexity == if count == 0 then 0.0 else 1.0
    ensures fp == 0 && fn == 0
    ensures accuracy == |truth| as real / Scoring.Max1(|m.users|) as real
  {
    paths, complexity, count, fp, fn := DetectFnFr(H, truth);
    FromHitRooted(H, paths);
    assert |paths| == |paths.Keys| == |truth.Keys|;
    accuracy := Scoring.DetectionAccuracy(|paths|, |m.users|);
  }
}
