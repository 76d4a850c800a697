/** The permission-based file-system hypergraph of hypergraph.py
    (`create_permission_based_os_hypergraph`, lines 26-76): a map from
    (user, file system) pairs to permission letters, a superadmin override,
    the grouping of pairs into one hyperedge per permission set, labelled by
    the sorted letters, and the edge colour map. */
module PermissionHypergraph {

  type Pair = (string, string)
  type PermissionMap = map<Pair, set<char>>
  /** `perm_edges`: label -> the users and file systems holding that set. */
  type Hyperedges = map<string, set<string>>

  const Filesystems: seq<string> := ["ext4", "NFS", "SAN", "RAID"]
  const Superadmins: seq<string> := ["Root"]
  const FullAccess: set<char> := {'r', 'w', 'x'}

  /** The scenario of lines 33-50. */
  const Scenario: PermissionMap := map[
    ("Alice", "ext4") := {'r', 'w', 'x'},
    ("Bob", "ext4") := {'r'},
    ("Bob", "NFS") := {'r', 'w'},
    ("Alice", "NFS") := {'w'},
    ("Charlie", "NFS") := {'r'},
    ("Charlie", "SAN") := {'r', 'x'},
    ("David", "SAN") := {'r', 'w'},
    ("Bob", "SAN") := {'r', 'w'},
    ("Alice", "RAID") := {'r', 'w'},
    ("Charlie", "RAID") := {'r'},
    ("Bob", "RAID") := {'x'},
    ("Charlie", "ext4") := {'r'},
    ("Root", "ext4") := {'r', 'w', 'x'},
    ("Root", "NFS") := {'r', 'w', 'x'},
    ("Root", "SAN") := {'r', 'w', 'x'},
    ("Root", "RAID") := {'r', 'w', 'x'}
  ]

  const Grey: string := "#AAAAAA"

  /** `bright_colors`, lines 68-73. */
  const BrightColors: map<string, string> := map[
    "rw" := "#1f77b4",
    "r" := "#ff7f0e",
    "rx" := "#2ca02c",
    "rwx" := "#d62728"
  ]

  // ---------------------------------------------------------------------------
  // Edge labels: `''.join(sorted(perms))`
  // ---------------------------------------------------------------------------

  predicate StrictlySorted(s: string)
  {
    forall i, j :: 0 <= i < j < |s| ==> s[i] < s[j]
  }

  function Elements(s: string): set<char>
  {
    set i | 0 <= i < |s| :: s[i]
  }

  lemma {:induction false} LeastExists(s: set<char>)
    requires s != {}
    ensures exists c :: c in s && forall d :: d in s ==> c <= d
    decreases |s|
  {
    var x :| x in s;
    if s != {x} {
      LeastExists(s - {x});
      var c :| c in s - {x} && forall d :: d in s - {x} ==> c <= d;
      var m := if x < c then x else c;
      forall d | d in s
        ensures m <= d
      {
        if d != x {
          assert d in s - {x};
        }
      }
    }
  }

  /** The smallest letter of a non-empty set. */
  function Least(s: set<char>): (c: char)
    requires s != {}
    ensures c in s && forall d :: d in s ==> c <= d
  {
    LeastExists(s);
    var c :| c in s && forall d :: d in s ==> c <= d;
    c
  }

  /** The label of a permission set: its letters in ascending order. */
  function EdgeLabel(perms: set<char>): string
    decreases |perms|
  {
    if perms == {} then ""
    else
      var c := Least(perms);
      [c] + EdgeLabel(perms - {c})
  }

  /** The label lists every letter of the set once, in ascending order. */
  lemma {:induction false} LabelMeaning(perms: set<char>)
    ensures StrictlySorted(EdgeLabel(perms))
    ensures Elements(EdgeLabel(perms)) == perms
    decreases |perms|
  {
    if perms != {} {
      var c := Least(perms);
      var rest := EdgeLabel(perms - {c});
      LabelMeaning(perms - {c});
      ElementsCons(c, rest);
      SortedCons(c, rest, perms);
    } else {
      NoElements(EdgeLabel(perms));
    }
  }

  lemma ElementsCons(c: char, s: string)
    ensures Elements([c] + s) == {c} + Elements(s)
  {
    forall x | x in Elements([c] + s)
      ensures x in {c} + Elements(s)
    {
      var i :| 0 <= i < |[c] + s| && ([c] + s)[i] == x;
      if i > 0 {
        assert s[i - 1] == x;
      }
    }
    forall x | x in Elements(s)
      ensures x in Elements([c] + s)
    {
      var i :| 0 <= i < |s| && s[i] == x;
      assert ([c] + s)[i + 1] == x;
    }
    assert ([c] + s)[0] == c;
  }

  lemma SortedCons(c: char, s: string, S: set<char>)
    requires StrictlySorted(s) && Elements(s) == S - {c}
    requires forall d :: d in S ==> c <= d
    ensures StrictlySorted([c] + s)
  {
    forall i, j | 0 <= i < j < |[c] + s|
      ensures ([c] + s)[i] < ([c] + s)[j]
    {
      assert ([c] + s)[j] == s[j - 1];
      if i == 0 {
        assert s[j - 1] in S - {c};
      } else {
        assert ([c] + s)[i] == s[i - 1];
      }
    }
  }

  lemma NoElements(s: string)
    ensures Elements(s) == {} <==> s == []
  {
    if s != [] {
      assert s[0] in Elements(s);
    }
  }

  /** Two ascending strings with the same letters are the same string. */
  lemma {:induction false} SortedUnique(a: string, b: string)
    requires StrictlySorted(a) && StrictlySorted(b) && Elements(a) == Elements(b)
    ensures a == b
    decreases |a|
  {
    NoElements(a);
    NoElements(b);
    if a != [] && b != [] {
      assert a[0] == b[0] by {
        assert a[0] in Elements(b) && b[0] in Elements(a);
        var i :| 0 <= i < |b| && b[i] == a[0];
        var j :| 0 <= j < |a| && a[j] == b[0];
      }
      assert Elements(a[1..]) == Elements(a) - {a[0]} by {
        forall x | x in Elements(a) - {a[0]} ensures x in Elements(a[1..]) {
          var i :| 0 <= i < |a| && a[i] == x;
          assert a[1..][i - 1] == x;
        }
      }
      assert Elements(b[1..]) == Elements(b) - {b[0]} by {
        forall x | x in Elements(b) - {b[0]} ensures x in Elements(b[1..]) {
          var i :| 0 <= i < |b| && b[i] == x;
          assert b[1..][i - 1] == x;
        }
      }
      SortedUnique(a[1..], b[1..]);
      assert a == [a[0]] + a[1..] && b == [b[0]] + b[1..];
    }
  }

  /** The label is the one ascending string of the set's letters. */
  lemma LabelIsSortedLetters(perms: set<char>, s: string)
    requires StrictlySorted(s) && Elements(s) == perms
    ensures EdgeLabel(perms) == s
  {
    LabelMeaning(perms);
    SortedUnique(EdgeLabel(perms), s);
  }

  /** Equal labels exactly when equal permission sets. */
  lemma LabelInjective(p: set<char>, q: set<char>)
    ensures EdgeLabel(p) == EdgeLabel(q) <==> p == q
  {
    LabelMeaning(p);
    LabelMeaning(q);
  }

  // ---------------------------------------------------------------------------
  // Step 1b: the superadmin override, lines 53-55
  // ---------------------------------------------------------------------------

  predicate AdminPair(k: Pair, admins: seq<string>, filesystems: seq<string>)
  {
    k.0 in admins && k.1 in filesystems
  }

  /** `permission_map[(superadmin, fs)] = {"r", "w", "x"}` for every
      superadmin and file system; nothing else changes. */
  method ApplySuperadmins(pm: PermissionMap, admins: seq<string>, filesystems: seq<string>)
    returns (pm': PermissionMap)
    ensures forall k :: k in pm' <==> k in pm || AdminPair(k, admins, filesystems)
    ensures forall k :: k in pm' ==> pm'[k] == if AdminPair(k, admins, filesystems) then FullAccess else pm[k]
    ensures (forall k :: AdminPair(k, admins, filesystems) ==> k in pm && pm[k] == FullAccess) ==> pm' == pm
  {
    pm' := pm;
    for a := 0 to |admins|
      invariant forall k :: k in pm' <==> k in pm || AdminPair(k, admins[..a], filesystems)
      invariant forall k :: k in pm' ==> pm'[k] == if AdminPair(k, admins[..a], filesystems) then FullAccess else pm[k]
    {
      pm' := GrantAll(pm', admins[a], filesystems);
      assert forall k :: AdminPair(k, admins[..a + 1], filesystems)
                         <==> AdminPair(k, admins[..a], filesystems) || (k.0 == admins[a] && k.1 in filesystems);
    }
    assert admins[..|admins|] == admins;
    if forall k :: AdminPair(k, admins, filesystems) ==> k in pm && pm[k] == FullAccess {
      assert pm'.Keys == pm.Keys;
    }
  }

  /** The inner loop for one superadmin. */
  method GrantAll(pm: PermissionMap, admin: string, filesystems: seq<string>) returns (pm': PermissionMap)
    ensures forall k :: k in pm' <==> k in pm || (k.0 == admin && k.1 in filesystems)
    ensures forall k :: k in pm' ==> pm'[k] == if k.0 == admin && k.1 in filesystems then FullAccess else pm[k]
  {
    pm' := pm;
    for f := 0 to |filesystems|
      invariant forall k :: k in pm' <==> k in pm || (k.0 == admin && k.1 in filesystems[..f])
      invariant forall k :: k in pm' ==> pm'[k] == if k.0 == admin && k.1 in filesystems[..f] then FullAccess else pm[k]
    {
      pm' := pm'[(admin, filesystems[f]) := FullAccess];
      assert forall x :: x in filesystems[..f + 1] <==> x in filesystems[..f] || x == filesystems[f];
    }
    assert filesystems[..|filesystems|] == filesystems;
  }

  // ---------------------------------------------------------------------------
  // Step 2: grouping pairs by permission set, lines 58-62
  // ---------------------------------------------------------------------------

  /** The labels of the pairs of `D`. */
  function LabelsOf(pm: PermissionMap, D: set<Pair>): set<string>
    requires D <= pm.Keys
  {
    set k | k in D :: EdgeLabel(pm[k])
  }

  /** The users and file systems of the pairs of `D` labelled `e`. */
  function MembersOf(pm: PermissionMap, D: set<Pair>, e: string): set<string>
    requires D <= pm.Keys
  {
    (set k | k in D && EdgeLabel(pm[k]) == e :: k.0) + (set k | k in D && EdgeLabel(pm[k]) == e :: k.1)
  }

  predicate Grouped(pm: PermissionMap, D: set<Pair>, edges: Hyperedges)
    requires D <= pm.Keys
  {
    && edges.Keys == LabelsOf(pm, D)
    && forall e :: e in edges ==> edges[e] == MembersOf(pm, D, e)
  }

  lemma LabelsStep(pm: PermissionMap, D: set<Pair>, k: Pair)
    requires D <= pm.Keys && k in pm
    ensures LabelsOf(pm, D + {k}) == LabelsOf(pm, D) + {EdgeLabel(pm[k])}
  {
  }

  lemma MembersStep(pm: PermissionMap, D: set<Pair>, k: Pair, e: string)
    requires D <= pm.Keys && k in pm
    ensures MembersOf(pm, D + {k}, e) == MembersOf(pm, D, e) + (if EdgeLabel(pm[k]) == e then {k.0, k.1} else {})
  {
  }

  lemma MembersOfNoLabel(pm: PermissionMap, D: set<Pair>, e: string)
    requires D <= pm.Keys && e !in LabelsOf(pm, D)
    ensures MembersOf(pm, D, e) == {}
  {
    forall j | j in D
      ensures EdgeLabel(pm[j]) != e
    {
      assert EdgeLabel(pm[j]) in LabelsOf(pm, D);
    }
  }

  lemma GroupStep(pm: PermissionMap, D: set<Pair>, k: Pair, edges: Hyperedges)
    requires D <= pm.Keys && k in pm && Grouped(pm, D, edges)
    ensures Grouped(pm, D + {k}, edges[EdgeLabel(pm[k]) := (if EdgeLabel(pm[k]) in edges then edges[EdgeLabel(pm[k])] else {}) + {k.0, k.1}])
  {
    var lab := EdgeLabel(pm[k]);
    var before := if lab in edges then edges[lab] else {};
    var edges' := edges[lab := before + {k.0, k.1}];
    LabelsStep(pm, D, k);
    forall e | e in edges'
      ensures edges'[e] == MembersOf(pm, D + {k}, e)
    {
      MembersStep(pm, D, k, e);
      if e == lab && lab !in edges {
        MembersOfNoLabel(pm, D, e);
      }
    }
  }

  /** `perm_edges[edge_label].add(user); perm_edges[edge_label].add(fs)` for
      every pair, in whatever order the map is walked. */
  method GroupByPermissions(pm: PermissionMap) returns (edges: Hyperedges)
    ensures Grouped(pm, pm.Keys, edges)
  {
    edges := map[];
    var todo := pm.Keys;
    ghost var done: set<Pair> := {};
    while todo != {}
      invariant todo !! done && todo + done == pm.Keys
      invariant Grouped(pm, done, edges)
      decreases todo
    {
      var k :| k in todo;
      var edgeLabel := EdgeLabel(pm[k]);
      var members := if edgeLabel in edges then edges[edgeLabel] else {};
      GroupStep(pm, done, k, edges);
      edges := edges[edgeLabel := members + {k.0, k.1}];
      todo := todo - {k};
      done := done + {k};
    }
  }

  /** Every pair's user and file system sit in the hyperedge of its label. */
  lemma PairsAreMembers(pm: PermissionMap, edges: Hyperedges, k: Pair)
    requires Grouped(pm, pm.Keys, edges) && k in pm
    ensures EdgeLabel(pm[k]) in edges
    ensures k.0 in edges[EdgeLabel(pm[k])] && k.1 in edges[EdgeLabel(pm[k])]
  {
    assert EdgeLabel(pm[k]) in LabelsOf(pm, pm.Keys);
  }

  /** Every member of a hyperedge is the user or the file system of a pair
      carrying that label. */
  lemma MembersComeFromPairs(pm: PermissionMap, edges: Hyperedges, e: string, n: string)
    requires Grouped(pm, pm.Keys, edges) && e in edges && n in edges[e]
    ensures exists k :: k in pm && EdgeLabel(pm[k]) == e && (n == k.0 || n == k.1)
  {
  }

  /** The labels of a set of permission sets. */
  function Labels(S: set<set<char>>): set<string>
  {
    set p | p in S :: EdgeLabel(p)
  }

  /** Distinct permission sets get distinct labels, so there are as many
      labels as permission sets. */
  lemma {:induction false} LabelCount(S: set<set<char>>)
    ensures |Labels(S)| == |S|
    decreases |S|
  {
    if S != {} {
      var p :| p in S;
      LabelCount(S - {p});
      assert Labels(S) == Labels(S - {p}) + {EdgeLabel(p)};
      if EdgeLabel(p) in Labels(S - {p}) {
        var q :| q in S - {p} && EdgeLabel(q) == EdgeLabel(p);
        LabelInjective(p, q);
        assert false;
      }
    }
  }

  /** One hyperedge per distinct permission set of the map. */
  lemma HyperedgeCount(pm: PermissionMap, edges: Hyperedges)
    requires Grouped(pm, pm.Keys, edges)
    ensures |edges| == |pm.Values|
  {
    LabelCount(pm.Values);
    assert edges.Keys == Labels(pm.Values) by {
      forall e | e in edges
        ensures e in Labels(pm.Values)
      {
        var k :| k in pm && EdgeLabel(pm[k]) == e;
        assert pm[k] in pm.Values;
      }
      forall p | p in pm.Values
        ensures EdgeLabel(p) in edges
      {
        var k :| k in pm && pm[k] == p;
        assert EdgeLabel(pm[k]) in LabelsOf(pm, pm.Keys);
      }
    }
    assert |edges| == |edges.Keys|;
  }

  // ---------------------------------------------------------------------------
  // Step 4: edge colours, line 76
  // ---------------------------------------------------------------------------

  /** `bright_colors.get(edge_name, "#AAAAAA")` for every hyperedge. */
  function EdgeColors(edges: Hyperedges): (colors: map<string, string>)
    ensures colors.Keys == edges.Keys
  {
    map e | e in edges :: if e in BrightColors then BrightColors[e] else Grey
  }

  /** The hyperedge of every pair gets a colour, and it is grey exactly when
      the pair's permission set is none of r, rw, rx, rwx. */
  lemma PairColor(pm: PermissionMap, edges: Hyperedges, k: Pair)
    requires Grouped(pm, pm.Keys, edges) && k in pm
    ensures EdgeLabel(pm[k]) in EdgeColors(edges)
    ensures EdgeColors(edges)[EdgeLabel(pm[k])] == Grey
        <==> !(pm[k] == {'r'} || pm[k] == {'r', 'w'} || pm[k] == {'r', 'x'} || pm[k] == {'r', 'w', 'x'})
  {
    PairsAreMembers(pm, edges, k);
    ColorOfPermissionSet(pm[k]);
  }

  /** A string of ascending letters is the label of its own letters. */
  lemma LabelOfLetters(s: string)
    requires StrictlySorted(s)
    ensures EdgeLabel(Elements(s)) == s
  {
    LabelIsSortedLetters(Elements(s), s);
  }

  /** The colour of a hyperedge depends only on its permission set: the four
      sets r, rw, rx, rwx are bright, every other set is grey. */
  lemma ColorOfPermissionSet(p: set<char>)
    ensures EdgeLabel(p) in BrightColors
        <==> p == {'r'} || p == {'r', 'w'} || p == {'r', 'x'} || p == {'r', 'w', 'x'}
    ensures p == {'r', 'w'} ==> BrightColors[EdgeLabel(p)] == "#1f77b4"
    ensures p == {'r'} ==> BrightColors[EdgeLabel(p)] == "#ff7f0e"
    ensures p == {'r', 'x'} ==> BrightColors[EdgeLabel(p)] == "#2ca02c"
    ensures p == {'r', 'w', 'x'} ==> BrightColors[EdgeLabel(p)] == "#d62728"
  {
    OneLetter('r');
    LetterSet("r", {'r'});
    TwoLetters('r', 'w');
    LetterSet("rw", {'r', 'w'});
    TwoLetters('r', 'x');
    LetterSet("rx", {'r', 'x'});
    ThreeLetters('r', 'w', 'x');
    LetterSet("rwx", {'r', 'w', 'x'});
  }

  lemma OneLetter(a: char)
    ensures StrictlySorted([a]) && Elements([a]) == {a}
  {
    assert [a][0] == a;
  }

  lemma TwoLetters(a: char, b: char)
    requires a < b
    ensures StrictlySorted([a, b]) && Elements([a, b]) == {a, b}
  {
    assert [a, b][0] == a && [a, b][1] == b;
  }

  lemma ThreeLetters(a: char, b: char, c: char)
    requires a < b < c
    ensures StrictlySorted([a, b, c]) && Elements([a, b, c]) == {a, b, c}
  {
    assert [a, b, c][0] == a && [a, b, c][1] == b && [a, b, c][2] == c;
  }

  /** `s` is the label of `p` exactly when `p` holds the letters of `s`. */
  lemma LetterSet(s: string, p: set<char>)
    requires StrictlySorted(s) && Elements(s) == p
    ensures forall q :: EdgeLabel(q) == s <==> q == p
  {
    LabelOfLetters(s);
    forall q | EdgeLabel(q) == s
      ensures q == p
    {
      LabelMeaning(q);
    }
  }

  // ---------------------------------------------------------------------------
  // The whole construction
  // ---------------------------------------------------------------------------

  /** The scenario already gives Root every letter on every file system. */
  lemma ScenarioGrantsRoot()
    ensures forall k :: AdminPair(k, Superadmins, Filesystems) ==> k in Scenario && Scenario[k] == FullAccess
  {
    forall k | AdminPair(k, Superadmins, Filesystems)
      ensures k in Scenario && Scenario[k] == FullAccess
    {
      assert k.0 == "Root";
      assert k.1 == "ext4" || k.1 == "NFS" || k.1 == "SAN" || k.1 == "RAID";
    }
  }

  const ScenarioSetsUsed: set<set<char>> := {{'r', 'w', 'x'}, {'r'}, {'r', 'w'}, {'w'}, {'r', 'x'}, {'x'}}

  /** The scenario uses six distinct permission sets. */
  lemma ScenarioSets()
    ensures Scenario.Values == ScenarioSetsUsed
    ensures |Scenario.Values| == 6
  {
    assert ("Alice", "ext4") in Scenario && ("Bob", "ext4") in Scenario && ("Bob", "NFS") in Scenario;
    assert ("Alice", "NFS") in Scenario && ("Charlie", "SAN") in Scenario && ("Bob", "RAID") in Scenario;
    assert Scenario.Values == ScenarioSetsUsed;
    SixSets();
  }

  lemma SixSets()
    ensures |ScenarioSetsUsed| == 6
  {
    assert 'r' !in {'x'} && 'r' !in {'w'};
  }

  /** Lines 53-76 on the scenario: the override changes nothing (Root already
      holds every letter on every file system), one hyperedge per permission
      set (six of them), one colour per hyperedge. */
  method CreatePermissionHypergraph() returns (pm: PermissionMap, edges: Hyperedges, colors: map<string, string>)
    ensures pm == Scenario
    ensures Grouped(pm, pm.Keys, edges) && |edges| == |pm.Values| == 6
    ensures colors == EdgeColors(edges)
  {
    ScenarioGrantsRoot();
    pm := ApplySuperadmins(Scenario, Superadmins, Filesystems);
    edges := GroupByPermissions(pm);
    HyperedgeCount(pm, edges);
    ScenarioSets();
    colors := EdgeColors(edges);
  }
}
