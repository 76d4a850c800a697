/** `detect_privilege_escalation` of the three ngac-hypergraph files: for
    every node that passes a name test, every hyperedge through it that also
    holds a policy class is one traversal, recorded as a path of length 1. */
module HypergraphDetector {
  import opened Domain
  import opened Labels
  import opened NgacHypergraph
  import Scoring

  /** `H.nodes`: every member of some hyperedge. */
  function Nodes(H: Hypergraph): set<Label>
  {
    set k, l | k in H && l in H[k] :: l
  }

  /** `H.nodes.memberships`: the hyperedges each node belongs to. */
  function Memberships(H: Hypergraph): map<Label, set<EdgeKey>>
  {
    map l | l in Nodes(H) :: set k | k in H && l in H[k]
  }

  /** `H.incidence_dict.get(edge_key, set())`. */
  function Members(H: Hypergraph, k: EdgeKey): set<Label>
  {
    if k in H then H[k] else {}
  }

  /** The hyperedge holds a policy class. */
  ghost predicate HasClass(members: set<Label>)
  {
    exists m :: m in members && m.PC?
  }

  /** The two passes: `'User_' in user` and `'Resource_' in resource`. */
  datatype Scan = UserScan | ResourceScan

  /** The nodes a pass starts from: users and their attribute nodes, or
      resources and theirs. */
  ghost predicate Selected(scan: Scan, l: Label)
  {
    match scan
    case UserScan => l.User? || l.UserAttr?
    case ResourceScan => l.Resource? || l.ResAttr?
  }

  /** `'User_' in user` and `'Resource_' in resource`, on the printed name. */
  method NameTest(scan: Scan, l: Label) returns (b: bool)
    ensures b <==> Selected(scan, l)
  {
    UserLabelTest(l);
    ResourceLabelTest(l);
    b := match scan
      case UserScan => IsUserLabel(l)
      case ResourceScan => IsResourceLabel(l);
  }

  /** `any(member in ['IAM', 'EC2', 'S3', 'KMS', 'RDS'] for member in edge_members)`. */
  method ClassTest(members: set<Label>) returns (b: bool)
    ensures b <==> HasClass(members)
  {
    forall m | m in members
      ensures IsClassLabel(m) <==> m.PC?
    {
      ClassLabelTest(m);
    }
    b := exists m :: m in members && IsClassLabel(m);
  }

  /** The hyperedges through `l` that hold a policy class. */
  ghost function HitKeys(H: Hypergraph, l: Label): set<EdgeKey>
  {
    set k | k in H && l in H[k] && HasClass(H[k])
  }

  /** One traversal per (selected node, hyperedge) pair, for the nodes in `D`. */
  ghost function HitsIn(H: Hypergraph, scan: Scan, D: set<Label>): set<(Label, EdgeKey)>
  {
    set l, k | l in D && Selected(scan, l) && k in HitKeys(H, l) :: (l, k)
  }

  /** Every traversal of one pass. */
  ghost function Hits(H: Hypergraph, scan: Scan): set<(Label, EdgeKey)>
  {
    HitsIn(H, scan, Nodes(H))
  }

  /** The nodes of `D` one pass records a path for. */
  ghost function FlaggedIn(H: Hypergraph, scan: Scan, D: set<Label>): set<Label>
  {
    set l | l in D && Selected(scan, l) && HitKeys(H, l) != {}
  }

  ghost function Flagged(H: Hypergraph, scan: Scan): set<Label>
  {
    FlaggedIn(H, scan, Nodes(H))
  }

  /** `escalation_paths[x]` holds the members of one of x's hits. */
  ghost predicate FromHit(H: Hypergraph, x: Label, v: set<Label>)
  {
    exists k :: k in HitKeys(H, x) && v == H[k]
  }

  /** Every recorded path contains its start and a policy class. */
  lemma FromHitRooted(H: Hypergraph, paths: map<Label, set<Label>>)
    requires forall x :: x in paths ==> FromHit(H, x, paths[x])
    ensures forall x :: x in paths ==> x in paths[x] && HasClass(paths[x])
  {
    forall x | x in paths
      ensures x in paths[x] && HasClass(paths[x])
    {
      var k :| k in HitKeys(H, x) && paths[x] == H[k];
    }
  }

  /** `path_lengths`, one `1` per traversal. */
  function Ones(n: nat): (s: seq<nat>)
    ensures |s| == n && forall i :: 0 <= i < n ==> s[i] == 1
  {
    seq(n, _ => 1)
  }

  // ---------------------------------------------------------------------------
  // Facts the scans rely on
  // ---------------------------------------------------------------------------

  /** The index lists exactly the hyperedges holding a node, so looking a
      node up in it finds what a scan over every hyperedge finds. */
  lemma MembershipsMeaning(H: Hypergraph, l: Label)
    ensures forall k :: k in (if l in Memberships(H) then Memberships(H)[l] else {}) <==> k in H && l in H[k]
  {
    forall k | k in H && l in H[k]
      ensures l in Nodes(H)
    {
    }
  }

  /** Every hit of a node lies on a hyperedge holding it. */
  lemma HitsAreNodes(H: Hypergraph, l: Label)
    ensures HitKeys(H, l) != {} ==> l in Nodes(H)
  {
    if HitKeys(H, l) != {} {
      var k :| k in HitKeys(H, l);
    }
  }

  lemma OnesSplit(a: nat, b: nat)
    ensures Ones(a) + Ones(b) == Ones(a + b)
  {
  }

  /** Pairing one node with each of a set of keys keeps the count. */
  lemma {:induction false} PairsCard(l: Label, K: set<EdgeKey>)
    ensures |set k | k in K :: (l, k)| == |K|
  {
    if K != {} {
      var k :| k in K;
      PairsCard(l, K - {k});
      assert (set k' | k' in K :: (l, k')) == (set k' | k' in K - {k} :: (l, k')) + {(l, k)};
    }
  }

  /** The traversals from one node. */
  ghost function HitsOf(H: Hypergraph, l: Label): set<(Label, EdgeKey)>
  {
    set k | k in HitKeys(H, l) :: (l, k)
  }

  lemma HitsInSplit(H: Hypergraph, scan: Scan, D: set<Label>, l: Label)
    ensures HitsIn(H, scan, D + {l}) == HitsIn(H, scan, D) + (if Selected(scan, l) then HitsOf(H, l) else {})
  {
    var added := if Selected(scan, l) then HitsOf(H, l) else {};
    forall p | p in HitsIn(H, scan, D + {l})
      ensures p in HitsIn(H, scan, D) + added
    {
      var (x, k) := p;
      if x != l {
        assert x in D;
      }
    }
  }

  /** Adding a node to the scanned set adds its hits, and only those. */
  lemma HitsInStep(H: Hypergraph, scan: Scan, D: set<Label>, l: Label)
    requires l !in D
    ensures |HitsIn(H, scan, D + {l})| == |HitsIn(H, scan, D)| + (if Selected(scan, l) then |HitKeys(H, l)| else 0)
  {
    HitsInSplit(H, scan, D, l);
    if Selected(scan, l) {
      assert HitsIn(H, scan, D) !! HitsOf(H, l);
      PairsCard(l, HitKeys(H, l));
    }
  }

  lemma FlaggedInStep(H: Hypergraph, scan: Scan, D: set<Label>, l: Label)
    ensures FlaggedIn(H, scan, D + {l})
         == FlaggedIn(H, scan, D) + (if Selected(scan, l) && HitKeys(H, l) != {} then {l} else {})
  {
  }

  // ---------------------------------------------------------------------------
  // The inner loops: the hyperedges through one node
  // ---------------------------------------------------------------------------

  /** What one inner loop leaves behind: one traversal per hit of `l`, and
      `paths[l]` the members of one of them (of the last one visited). */
  ghost predicate Traversed(H: Hypergraph, l: Label,
                            paths: map<Label, set<Label>>, count: nat, lengths: seq<nat>,
                            paths': map<Label, set<Label>>, count': nat, lengths': seq<nat>)
  {
    && count' == count + |HitKeys(H, l)|
    && lengths' == lengths + Ones(|HitKeys(H, l)|)
    && (HitKeys(H, l) == {} ==> paths' == paths)
    && (HitKeys(H, l) != {} ==> l in paths' && paths' == paths[l := paths'[l]] && FromHit(H, l, paths'[l]))
  }

  /** The inner loop's invariant: `found` holds the hits among the visited
      hyperedges, `last` the one visited most recently. */
  ghost predicate Visiting(H: Hypergraph, l: Label, todo: set<EdgeKey>, found: set<EdgeKey>, last: EdgeKey,
                           paths: map<Label, set<Label>>, count: nat, lengths: seq<nat>,
                           paths': map<Label, set<Label>>, count': nat, lengths': seq<nat>)
  {
    && found == HitKeys(H, l) - todo
    && count' == count + |found| && lengths' == lengths + Ones(|found|)
    && (found == {} ==> paths' == paths)
    && (found != {} ==> last in found && l in paths' && paths' == paths[l := paths'[l]] && last in H && paths'[l] == H[last])
  }

  lemma VisitStart(H: Hypergraph, l: Label, todo: set<EdgeKey>,
                   paths: map<Label, set<Label>>, count: nat, lengths: seq<nat>)
    requires forall k :: k in H && l in H[k] ==> k in todo
    ensures Visiting(H, l, todo, {}, UserEdge(0), paths, count, lengths, paths, count, lengths)
  {
  }

  /** A visited hyperedge through `l` holding a policy class: one traversal. */
  lemma VisitHit(H: Hypergraph, l: Label, todo: set<EdgeKey>, found: set<EdgeKey>, last: EdgeKey,
                 paths: map<Label, set<Label>>, count: nat, lengths: seq<nat>,
                 paths': map<Label, set<Label>>, count': nat, lengths': seq<nat>, k: EdgeKey)
    requires Visiting(H, l, todo, found, last, paths, count, lengths, paths', count', lengths')
    requires k in todo && k in H && l in H[k] && HasClass(H[k])
    ensures Visiting(H, l, todo - {k}, found + {k}, k, paths, count, lengths,
                     paths'[l := H[k]], count' + 1, lengths' + [1])
    ensures |found + {k}| == |found| + 1
  {
    assert k !in found;
    assert k in HitKeys(H, l);
    assert found + {k} == HitKeys(H, l) - (todo - {k});
    OnesSplit(|found|, 1);
    MapOverwrite(paths, paths', l, H[k]);
  }

  lemma MapOverwrite(paths: map<Label, set<Label>>, paths': map<Label, set<Label>>, l: Label, v: set<Label>)
    requires paths' == paths || (l in paths' && paths' == paths[l := paths'[l]])
    ensures paths'[l := v] == paths[l := v]
  {
  }

  /** Any other visited hyperedge changes nothing. */
  lemma VisitMiss(H: Hypergraph, l: Label, todo: set<EdgeKey>, found: set<EdgeKey>, last: EdgeKey,
                  paths: map<Label, set<Label>>, count: nat, lengths: seq<nat>,
                  paths': map<Label, set<Label>>, count': nat, lengths': seq<nat>, k: EdgeKey)
    requires Visiting(H, l, todo, found, last, paths, count, lengths, paths', count', lengths')
    requires k in todo && !(k in H && l in H[k] && HasClass(H[k]))
    ensures Visiting(H, l, todo - {k}, found, last, paths, count, lengths, paths', count', lengths')
  {
  }

  lemma VisitDone(H: Hypergraph, l: Label, found: set<EdgeKey>, last: EdgeKey,
                  paths: map<Label, set<Label>>, count: nat, lengths: seq<nat>,
                  paths': map<Label, set<Label>>, count': nat, lengths': seq<nat>)
    requires Visiting(H, l, {}, found, last, paths, count, lengths, paths', count', lengths')
    ensures found == HitKeys(H, l)
    ensures Traversed(H, l, paths, count, lengths, paths', count', lengths')
  {
  }

  /** Lines 95-103 (ground-truth): the hyperedges the index lists for `l`. */
  method TraverseIndexed(H: Hypergraph, index: map<Label, set<EdgeKey>>, l: Label,
                         paths: map<Label, set<Label>>, count: nat, lengths: seq<nat>)
    returns (paths': map<Label, set<Label>>, count': nat, lengths': seq<nat>)
    requires index == Memberships(H)
    ensures Traversed(H, l, paths, count, lengths, paths', count', lengths')
  {
    var related := if l in index then index[l] else {};
    MembershipsMeaning(H, l);
    paths', count', lengths' := paths, count, lengths;
    var todo := related;
    ghost var found: set<EdgeKey> := {};
    ghost var last: EdgeKey := UserEdge(0);
    VisitStart(H, l, todo, paths, count, lengths);
    while todo != {}
      invariant Visiting(H, l, todo, found, last, paths, count, lengths, paths', count', lengths')
      decreases todo
    {
      var k :| k in todo;
      var members := Members(H, k);
      var hit := false;
      if l in members {
        hit := ClassTest(members);
      }
      if hit {
        VisitHit(H, l, todo, found, last, paths, count, lengths, paths', count', lengths', k);
        count' := count' + 1;
        paths' := paths'[l := members];
        lengths' := lengths' + [1];
        found, last := found + {k}, k;
      } else {
        VisitMiss(H, l, todo, found, last, paths, count, lengths, paths', count', lengths', k);
      }
      todo := todo - {k};
    }
    VisitDone(H, l, found, last, paths, count, lengths, paths', count', lengths');
  }

  /** Lines 89-97 (fixed): every hyperedge, keeping those that hold `l`. */
  method TraverseAll(H: Hypergraph, l: Label,
                     paths: map<Label, set<Label>>, count: nat, lengths: seq<nat>)
    returns (paths': map<Label, set<Label>>, count': nat, lengths': seq<nat>)
    ensures Traversed(H, l, paths, count, lengths, paths', count', lengths')
  {
    paths', count', lengths' := paths, count, lengths;
    var todo := H.Keys;
    ghost var found: set<EdgeKey> := {};
    ghost var last: EdgeKey := UserEdge(0);
    VisitStart(H, l, todo, paths, count, lengths);
    while todo != {}
      invariant Visiting(H, l, todo, found, last, paths, count, lengths, paths', count', lengths')
      decreases todo
    {
      var k :| k in todo;
      var members := Members(H, k);
      var hit := false;
      if l in members {
        hit := ClassTest(members);
      }
      if hit {
        VisitHit(H, l, todo, found, last, paths, count, lengths, paths', count', lengths', k);
        count' := count' + 1;
        paths' := paths'[l := members];
        lengths' := lengths' + [1];
        found, last := found + {k}, k;
      } else {
        VisitMiss(H, l, todo, found, last, paths, count, lengths, paths', count', lengths', k);
      }
      todo := todo - {k};
    }
    VisitDone(H, l, found, last, paths, count, lengths, paths', count', lengths');
  }

  /** Lines 101-110 (fn-fr): as `TraverseAll`, and every traversal from a
      node outside the ground truth is a false positive. */
  method TraverseCounting(H: Hypergraph, truth: set<Label>, l: Label,
                          paths: map<Label, set<Label>>, count: nat, lengths: seq<nat>, fp: nat)
    returns (paths': map<Label, set<Label>>, count': nat, lengths': seq<nat>, fp': nat)
    ensures Traversed(H, l, paths, count, lengths, paths', count', lengths')
    ensures fp' == fp + (if l in truth then 0 else |HitKeys(H, l)|)
  {
    paths', count', lengths', fp' := paths, count, lengths, fp;
    var todo := H.Keys;
    ghost var found: set<EdgeKey> := {};
    ghost var last: EdgeKey := UserEdge(0);
    VisitStart(H, l, todo, paths, count, lengths);
    while todo != {}
      invariant Visiting(H, l, todo, found, last, paths, count, lengths, paths', count', lengths')
      invariant fp' == fp + (if l in truth then 0 else |found|)
      decreases todo
    {
      var k :| k in todo;
      var members := Members(H, k);
      var hit := false;
      if l in members {
        hit := ClassTest(members);
      }
      if hit {
        VisitHit(H, l, todo, found, last, paths, count, lengths, paths', count', lengths', k);
        count' := count' + 1;
        paths' := paths'[l := members];
        lengths' := lengths' + [1];
        if l !in truth {
          fp' := fp' + 1;
        }
        found, last := found + {k}, k;
      } else {
        VisitMiss(H, l, todo, found, last, paths, count, lengths, paths', count', lengths', k);
      }
      todo := todo - {k};
    }
    VisitDone(H, l, found, last, paths, count, lengths, paths', count', lengths');
  }

  // ---------------------------------------------------------------------------
  // The outer loops: every node of `H.nodes`
  // ---------------------------------------------------------------------------

  /** The outer loop's invariant after the nodes `D`: one traversal per hit of
      a selected node, and a path for exactly the selected nodes with a hit. */
  ghost predicate Scanned(H: Hypergraph, scan: Scan, D: set<Label>,
                          paths: map<Label, set<Label>>, count: nat, lengths: seq<nat>,
                          paths': map<Label, set<Label>>, count': nat, lengths': seq<nat>)
  {
    && Counted(H, scan, D, count, lengths, count', lengths')
    && Recorded(H, scan, D, paths, paths')
  }

  ghost predicate Counted(H: Hypergraph, scan: Scan, D: set<Label>,
                          count: nat, lengths: seq<nat>, count': nat, lengths': seq<nat>)
  {
    && count' == count + |HitsIn(H, scan, D)|
    && lengths' == lengths + Ones(|HitsIn(H, scan, D)|)
  }

  ghost predicate Recorded(H: Hypergraph, scan: Scan, D: set<Label>,
                           paths: map<Label, set<Label>>, paths': map<Label, set<Label>>)
  {
    && paths'.Keys == paths.Keys + FlaggedIn(H, scan, D)
    && (forall x :: x in paths && x !in FlaggedIn(H, scan, D) ==> paths'[x] == paths[x])
    && (forall x :: x in FlaggedIn(H, scan, D) ==> FromHit(H, x, paths'[x]))
  }

  lemma ScanStart(H: Hypergraph, scan: Scan, paths: map<Label, set<Label>>, count: nat, lengths: seq<nat>)
    ensures Scanned(H, scan, {}, paths, count, lengths, paths, count, lengths)
  {
    assert HitsIn(H, scan, {}) == {};
  }

  lemma CountStep(H: Hypergraph, scan: Scan, D: set<Label>, l: Label,
                  count: nat, lengths: seq<nat>, count': nat, lengths': seq<nat>, count'': nat, lengths'': seq<nat>)
    requires l !in D
    requires Counted(H, scan, D, count, lengths, count', lengths')
    requires count'' == count' + (if Selected(scan, l) then |HitKeys(H, l)| else 0)
    requires lengths'' == lengths' + Ones(if Selected(scan, l) then |HitKeys(H, l)| else 0)
    ensures Counted(H, scan, D + {l}, count, lengths, count'', lengths'')
  {
    HitsInStep(H, scan, D, l);
    OnesSplit(|HitsIn(H, scan, D)|, if Selected(scan, l) then |HitKeys(H, l)| else 0);
  }

  lemma RecordStep(H: Hypergraph, scan: Scan, D: set<Label>, l: Label,
                   paths: map<Label, set<Label>>, paths': map<Label, set<Label>>, paths'': map<Label, set<Label>>)
    requires l !in D
    requires Recorded(H, scan, D, paths, paths')
    requires !(Selected(scan, l) && HitKeys(H, l) != {}) ==> paths'' == paths'
    requires Selected(scan, l) && HitKeys(H, l) != {} ==>
      l in paths'' && paths'' == paths'[l := paths''[l]] && FromHit(H, l, paths''[l])
    ensures Recorded(H, scan, D + {l}, paths, paths'')
  {
    FlaggedInStep(H, scan, D, l);
  }

  /** One more node: its inner loop ran when the name test selected it. */
  lemma ScanStep(H: Hypergraph, scan: Scan, D: set<Label>, l: Label,
                 paths: map<Label, set<Label>>, count: nat, lengths: seq<nat>,
                 paths': map<Label, set<Label>>, count': nat, lengths': seq<nat>,
                 paths'': map<Label, set<Label>>, count'': nat, lengths'': seq<nat>)
    requires l !in D
    requires Scanned(H, scan, D, paths, count, lengths, paths', count', lengths')
    requires Selected(scan, l) ==> Traversed(H, l, paths', count', lengths', paths'', count'', lengths'')
    requires !Selected(scan, l) ==> paths'' == paths' && count'' == count' && lengths'' == lengths'
    ensures Scanned(H, scan, D + {l}, paths, count, lengths, paths'', count'', lengths'')
  {
    assert Ones(0) == [];
    CountStep(H, scan, D, l, count, lengths, count', lengths', count'', lengths'');
    RecordStep(H, scan, D, l, paths, paths', paths'');
  }

  /** One node of the outer loop (ground-truth, lines 92-103): the name
      test, then the hyperedges the index lists for it. */
  method VisitIndexed(H: Hypergraph, index: map<Label, set<EdgeKey>>, scan: Scan, ghost done: set<Label>, l: Label,
                      ghost paths0: map<Label, set<Label>>, ghost count0: nat, ghost lengths0: seq<nat>,
                      paths: map<Label, set<Label>>, count: nat, lengths: seq<nat>)
    returns (paths': map<Label, set<Label>>, count': nat, lengths': seq<nat>)
    requires index == Memberships(H) && l !in done
    requires Scanned(H, scan, done, paths0, count0, lengths0, paths, count, lengths)
    ensures Scanned(H, scan, done + {l}, paths0, count0, lengths0, paths', count', lengths')
  {
    paths', count', lengths' := paths, count, lengths;
    var selected := NameTest(scan, l);
    if selected {
      paths', count', lengths' := TraverseIndexed(H, index, l, paths, count, lengths);
    }
    ScanStep(H, scan, done, l, paths0, count0, lengths0, paths, count, lengths, paths', count', lengths');
  }

  /** One node of the outer loop (fixed, lines 87-97): the name test, then
      every hyperedge. */
  method VisitAll(H: Hypergraph, scan: Scan, ghost done: set<Label>, l: Label,
                  ghost paths0: map<Label, set<Label>>, ghost count0: nat, ghost lengths0: seq<nat>,
                  paths: map<Label, set<Label>>, count: nat, lengths: seq<nat>)
    returns (paths': map<Label, set<Label>>, count': nat, lengths': seq<nat>)
    requires l !in done
    requires Scanned(H, scan, done, paths0, count0, lengths0, paths, count, lengths)
    ensures Scanned(H, scan, done + {l}, paths0, count0, lengths0, paths', count', lengths')
  {
    paths', count', lengths' := paths, count, lengths;
    var selected := NameTest(scan, l);
    if selected {
      paths', count', lengths' := TraverseAll(H, l, paths, count, lengths);
    }
    ScanStep(H, scan, done, l, paths0, count0, lengths0, paths, count, lengths, paths', count', lengths');
  }

  /** The false positives after the nodes `D`: the traversals from the
      nodes of `D` outside the ground truth. */
  lemma FalsePositiveStep(H: Hypergraph, scan: Scan, D: set<Label>, truth: set<Label>, l: Label)
    requires l !in D
    ensures |HitsIn(H, scan, (D + {l}) - truth)|
         == |HitsIn(H, scan, D - truth)| + (if Selected(scan, l) && l !in truth then |HitKeys(H, l)| else 0)
  {
    if l in truth {
      assert (D + {l}) - truth == D - truth;
    } else {
      assert (D + {l}) - truth == (D - truth) + {l};
      HitsInStep(H, scan, D - truth, l);
    }
  }

  /** One node of the user pass of fn-fr (lines 99-110). */
  method VisitCounting(H: Hypergraph, scan: Scan, truth: set<Label>, ghost done: set<Label>, l: Label,
                       ghost paths0: map<Label, set<Label>>, ghost count0: nat, ghost lengths0: seq<nat>,
                       paths: map<Label, set<Label>>, count: nat, lengths: seq<nat>, fp: nat)
    returns (paths': map<Label, set<Label>>, count': nat, lengths': seq<nat>, fp': nat)
    requires l !in done
    requires Scanned(H, scan, done, paths0, count0, lengths0, paths, count, lengths)
    requires fp == |HitsIn(H, scan, done - truth)|
    ensures Scanned(H, scan, done + {l}, paths0, count0, lengths0, paths', count', lengths')
    ensures fp' == |HitsIn(H, scan, (done + {l}) - truth)|
  {
    paths', count', lengths', fp' := paths, count, lengths, fp;
    var selected := NameTest(scan, l);
    if selected {
      paths', count', lengths', fp' := TraverseCounting(H, truth, l, paths, count, lengths, fp);
    }
    ScanStep(H, scan, done, l, paths0, count0, lengths0, paths, count, lengths, paths', count', lengths');
    FalsePositiveStep(H, scan, done, truth, l);
  }

  /** Lines 92-103 (ground-truth): every node of `H.nodes`, through the index. */
  method ScanIndexed(H: Hypergraph, scan: Scan, paths: map<Label, set<Label>>, count: nat, lengths: seq<nat>)
    returns (paths': map<Label, set<Label>>, count': nat, lengths': seq<nat>)
    ensures Scanned(H, scan, Nodes(H), paths, count, lengths, paths', count', lengths')
  {
    var index := Memberships(H);
    paths', count', lengths' := paths, count, lengths;
    var all := Nodes(H);
    var todo := all;
    ghost var done: set<Label> := {};
    ScanStart(H, scan, paths, count, lengths);
    while todo != {}
      invariant todo !! done && todo + done == all
      invariant Scanned(H, scan, done, paths, count, lengths, paths', count', lengths')
      decreases todo
    {
      var l :| l in todo;
      paths', count', lengths' := VisitIndexed(H, index, scan, done, l, paths, count, lengths, paths', count', lengths');
      todo, done := todo - {l}, done + {l};
    }
  }

  /** Lines 87-97 (fixed): every node of `H.nodes`, over every hyperedge. */
  method ScanAll(H: Hypergraph, scan: Scan, paths: map<Label, set<Label>>, count: nat, lengths: seq<nat>)
    returns (paths': map<Label, set<Label>>, count': nat, lengths': seq<nat>)
    ensures Scanned(H, scan, Nodes(H), paths, count, lengths, paths', count', lengths')
  {
    paths', count', lengths' := paths, count, lengths;
    var all := Nodes(H);
    var todo := all;
    ghost var done: set<Label> := {};
    ScanStart(H, scan, paths, count, lengths);
    while todo != {}
      invariant todo !! done && todo + done == all
      invariant Scanned(H, scan, done, paths, count, lengths, paths', count', lengths')
      decreases todo
    {
      var l :| l in todo;
      paths', count', lengths' := VisitAll(H, scan, done, l, paths, count, lengths, paths', count', lengths');
      todo, done := todo - {l}, done + {l};
    }
  }

  /** Lines 99-110 (fn-fr): the user pass, counting false positives as it goes. */
  method ScanCounting(H: Hypergraph, scan: Scan, truth: set<Label>,
                      paths: map<Label, set<Label>>, count: nat, lengths: seq<nat>)
    returns (paths': map<Label, set<Label>>, count': nat, lengths': seq<nat>, fp: nat)
    ensures Scanned(H, scan, Nodes(H), paths, count, lengths, paths', count', lengths')
    ensures fp == |HitsIn(H, scan, Nodes(H) - truth)|
  {
    paths', count', lengths', fp := paths, count, lengths, 0;
    var all := Nodes(H);
    var todo := all;
    ghost var done: set<Label> := {};
    ScanStart(H, scan, paths, count, lengths);
    ghost var outside: set<Label> := {};
    assert HitsIn(H, scan, outside) == {};
    while todo != {}
      invariant todo !! done && todo + done == all
      invariant Scanned(H, scan, done, paths, count, lengths, paths', count', lengths')
      invariant outside == done - truth && fp == |HitsIn(H, scan, outside)|
      decreases todo
    {
      var l :| l in todo;
      paths', count', lengths', fp := VisitCounting(H, scan, truth, done, l, paths, count, lengths, paths', count', lengths', fp);
      todo, done := todo - {l}, done + {l};
      outside := done - truth;
    }
  }

  // ---------------------------------------------------------------------------
  // The three detectors
  // ---------------------------------------------------------------------------

  /** `for x in xs: if x not in ys: n += 1`. */
  method CountOutside(xs: set<Label>, ys: set<Label>) returns (n: nat)
    ensures n == |xs - ys|
  {
    n := 0;
    var todo := xs;
    while todo != {}
      invariant todo <= xs
      invariant n == |(xs - todo) - ys|
      decreases todo
    {
      var x :| x in todo;
      if x !in ys {
        assert (xs - (todo - {x})) - ys == ((xs - todo) - ys) + {x};
        n := n + 1;
      } else {
        assert (xs - (todo - {x})) - ys == (xs - todo) - ys;
      }
      todo := todo - {x};
    }
  }

  /** The user pass followed by the resource pass, from an empty report. */
  lemma BothPasses(H: Hypergraph, p1: map<Label, set<Label>>, c1: nat, l1: seq<nat>,
                   paths: map<Label, set<Label>>, count: nat, lengths: seq<nat>)
    requires Scanned(H, UserScan, Nodes(H), map[], 0, [], p1, c1, l1)
    requires Scanned(H, ResourceScan, Nodes(H), p1, c1, l1, paths, count, lengths)
    ensures paths.Keys == Flagged(H, UserScan) + Flagged(H, ResourceScan)
    ensures forall x :: x in paths ==> FromHit(H, x, paths[x])
    ensures count == |Hits(H, UserScan)| + |Hits(H, ResourceScan)|
    ensures lengths == Ones(count)
  {
    OnesSplit(|Hits(H, UserScan)|, |Hits(H, ResourceScan)|);
    assert [] + Ones(|Hits(H, UserScan)|) == Ones(|Hits(H, UserScan)|);
  }

  /** `detect_privilege_escalation` of ngac-hypergraph-ground-truth.py
      (lines 82-131): the user pass, then the resource pass, both through
      the index, then the scores against `ground_truth_paths`. */
  method DetectGroundTruth(H: Hypergraph, truth: map<Label, PolicyClass>)
    returns (paths: map<Label, set<Label>>, complexity: real, count: nat, fp: nat, fn: nat)
    ensures paths.Keys == Flagged(H, UserScan) + Flagged(H, ResourceScan)
    ensures forall x :: x in paths ==> FromHit(H, x, paths[x])
    ensures count == |Hits(H, UserScan)| + |Hits(H, ResourceScan)|
    ensures complexity == if count == 0 then 0.0 else 1.0
    ensures fp == Scoring.FalsePositives(paths.Keys, truth.Keys)
    ensures fn == Scoring.FalseNegatives(paths.Keys, truth.Keys)
  {
    var lengths: seq<nat>;
    var p1: map<Label, set<Label>>;
    var c1: nat, l1: seq<nat>;
    p1, c1, l1 := ScanIndexed(H, UserScan, map[], 0, []);
    paths, count, lengths := ScanIndexed(H, ResourceScan, p1, c1, l1);
    BothPasses(H, p1, c1, l1, paths, count, lengths);
    complexity := Scoring.Average(lengths);
    Scoring.AverageConstant(lengths, 1);
    fn := CountOutside(truth.Keys, paths.Keys);
    fp := CountOutside(paths.Keys, truth.Keys);
  }

  /** `detect_privilege_escalation` of ngac-hypergraph-fixed.py (lines
      80-117): both passes over every hyperedge, no scores. */
  method DetectFixed(H: Hypergraph) returns (paths: map<Label, set<Label>>, complexity: real, count: nat)
    ensures paths.Keys == Flagged(H, UserScan) + Flagged(H, ResourceScan)
    ensures forall x :: x in paths ==> FromHit(H, x, paths[x])
    ensures count == |Hits(H, UserScan)| + |Hits(H, ResourceScan)|
    ensures complexity == if count == 0 then 0.0 else 1.0
  {
    var lengths: seq<nat>;
    var p1: map<Label, set<Label>>;
    var c1: nat, l1: seq<nat>;
    p1, c1, l1 := ScanAll(H, UserScan, map[], 0, []);
    paths, count, lengths := ScanAll(H, ResourceScan, p1, c1, l1);
    BothPasses(H, p1, c1, l1, paths, count, lengths);
    complexity := Scoring.Average(lengths);
    Scoring.AverageConstant(lengths, 1);
  }

  /** `detect_privilege_escalation` of ngac-hypergraph-fn-fr.py (lines
      90-121): the user pass only, a false positive per traversal from a
      user outside the ground truth, a false negative per ground-truth user
      without a path. */
  method DetectFnFr(H: Hypergraph, truth: map<Label, PolicyClass>)
    returns (paths: map<Label, set<Label>>, complexity: real, count: nat, fp: nat, fn: nat)
    ensures paths.Keys == Flagged(H, UserScan)
    ensures forall x :: x in paths ==> FromHit(H, x, paths[x])
    ensures count == |Hits(H, UserScan)|
    ensures complexity == if count == 0 then 0.0 else 1.0
    ensures fp == |HitsIn(H, UserScan, Nodes(H) - truth.Keys)|
    ensures fn == Scoring.FalseNegatives(paths.Keys, truth.Keys)
  {
    var lengths: seq<nat>;
    paths, count, lengths, fp := ScanCounting(H, UserScan, truth.Keys, map[], 0, []);
    fn := CountOutside(truth.Keys, paths.Keys);
    complexity := Scoring.Average(lengths);
    Scoring.AverageConstant(lengths, 1);
  }
}
