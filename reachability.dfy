/** Reachability and shortest distance over a set of directed edges, in the
    sense of networkx's `descendants` and `shortest_path_length`: a reference
    definition by walks, the breadth-first layers that compute it, and a
    breadth-first search proved against both. */
module Reachability {
  import opened DiGraphs
  import SetFacts

  /** A walk: a non-empty node sequence whose consecutive entries are edges. */
  ghost predicate IsWalk<L>(E: set<(L, L)>, p: seq<L>)
  {
    |p| >= 1 && forall i :: 0 <= i < |p| - 1 ==> (p[i], p[i + 1]) in E
  }

  ghost predicate WalkBetween<L>(E: set<(L, L)>, s: L, t: L, p: seq<L>)
  {
    IsWalk(E, p) && p[0] == s && p[|p| - 1] == t
  }

  /** `t` can be reached from `s` (with no edge when `t == s`). */
  ghost predicate Reachable<L(!new)>(E: set<(L, L)>, s: L, t: L)
  {
    exists p :: WalkBetween(E, s, t, p)
  }

  /** The targets of the edges leaving `S`. */
  function Step<L>(E: set<(L, L)>, S: set<L>): set<L>
  {
    set e | e in E && e.0 in S :: e.1
  }

  /** The nodes at distance at most `k` from `s`. */
  function Within<L>(E: set<(L, L)>, s: L, k: nat): set<L>
  {
    if k == 0 then {s} else Within(E, s, k - 1) + Step(E, Within(E, s, k - 1))
  }

  /** `d` is the length of a shortest walk from `s` to `t`. */
  ghost predicate IsDistance<L>(E: set<(L, L)>, s: L, t: L, d: nat)
  {
    t in Within(E, s, d) && (d > 0 ==> t !in Within(E, s, d - 1))
  }

  lemma {:induction false} WithinMonotone<L>(E: set<(L, L)>, s: L, j: nat, k: nat)
    requires j <= k
    ensures Within(E, s, j) <= Within(E, s, k)
  {
    if j < k {
      WithinMonotone(E, s, j, k - 1);
    }
  }

  /** The layers describe walks: `t` is within `k` of `s` exactly when some
      walk from `s` to `t` has at most `k` edges. */
  lemma {:induction false} WithinMeaning<L>(E: set<(L, L)>, s: L, k: nat)
    ensures forall t :: t in Within(E, s, k) <==> exists p :: WalkBetween(E, s, t, p) && |p| <= k + 1
  {
    forall t | t in Within(E, s, k) ensures exists p :: WalkBetween(E, s, t, p) && |p| <= k + 1 {
      WithinHasWalk(E, s, k, t);
    }
    forall t, p | WalkBetween(E, s, t, p) && |p| <= k + 1 ensures t in Within(E, s, k) {
      WalkInWithin(E, s, p);
      WithinMonotone(E, s, |p| - 1, k);
    }
  }

  lemma {:induction false} WithinHasWalk<L>(E: set<(L, L)>, s: L, k: nat, t: L)
    requires t in Within(E, s, k)
    ensures exists p :: WalkBetween(E, s, t, p) && |p| <= k + 1
  {
    if k == 0 {
      assert WalkBetween(E, s, t, [s]);
    } else if t in Within(E, s, k - 1) {
      WithinHasWalk(E, s, k - 1, t);
    } else {
      var e :| e in E && e.0 in Within(E, s, k - 1) && e.1 == t;
      WithinHasWalk(E, s, k - 1, e.0);
      var p :| WalkBetween(E, s, e.0, p) && |p| <= k;
      var q := p + [t];
      assert forall i :: 0 <= i < |p| ==> q[i] == p[i];
      assert WalkBetween(E, s, t, q);
    }
  }

  lemma {:induction false} WalkInWithin<L>(E: set<(L, L)>, s: L, p: seq<L>)
    requires IsWalk(E, p) && p[0] == s
    ensures p[|p| - 1] in Within(E, s, |p| - 1)
  {
    if |p| > 1 {
      var q := p[..|p| - 1];
      assert IsWalk(E, q) by {
        forall i | 0 <= i < |q| - 1 ensures (q[i], q[i + 1]) in E {
          assert q[i] == p[i] && q[i + 1] == p[i + 1];
        }
      }
      WalkInWithin(E, s, q);
      assert (p[|p| - 2], p[|p| - 1]) in E;
    }
  }

  /** Once a layer adds nothing, no later layer does. */
  lemma {:induction false} WithinStable<L>(E: set<(L, L)>, s: L, k: nat, j: nat)
    requires Within(E, s, k + 1) == Within(E, s, k)
    requires k <= j
    ensures Within(E, s, j) == Within(E, s, k)
    decreases j - k
  {
    if j > k {
      var W := Within(E, s, k);
      StepClosed(E, s, k);
      WithinStable(E, s, k, j - 1);
      WithinUnfold(E, s, j, W);
    }
  }

  lemma StepClosed<L>(E: set<(L, L)>, s: L, k: nat)
    requires Within(E, s, k + 1) == Within(E, s, k)
    ensures Step(E, Within(E, s, k)) <= Within(E, s, k)
  {
  }

  lemma WithinUnfold<L>(E: set<(L, L)>, s: L, j: nat, W: set<L>)
    requires j > 0 && Within(E, s, j - 1) == W && Step(E, W) <= W
    ensures Within(E, s, j) == W
  {
  }

  /** The new layer is reached from the last one alone. */
  lemma FrontierStep<L>(E: set<(L, L)>, s: L, k: nat, frontier: set<L>)
    requires k > 0
    requires frontier == Within(E, s, k) - Within(E, s, k - 1)
    ensures Within(E, s, k + 1) - Within(E, s, k) == Step(E, frontier) - Within(E, s, k)
  {
    assert Step(E, Within(E, s, k - 1)) <= Within(E, s, k);
  }

  /** The distances after `k` rounds: every node within `k` of `s`, mapped to
      the round that first reached it. */
  function Dist<L>(E: set<(L, L)>, s: L, k: nat): map<L, nat>
  {
    if k == 0 then map[s := 0]
    else Dist(E, s, k - 1) + map t | t in Layer(E, s, k) :: k
  }

  /** The nodes at distance exactly `k > 0`. */
  function Layer<L>(E: set<(L, L)>, s: L, k: nat): set<L>
    requires k > 0
  {
    Within(E, s, k) - Within(E, s, k - 1)
  }

  /** Every entry of `m` is the distance of its node from `s`. */
  ghost predicate AllDistances<L>(E: set<(L, L)>, s: L, m: map<L, nat>)
  {
    forall t :: t in m ==> IsDistance(E, s, t, m[t])
  }

  /** `Dist` covers exactly the layers, and each of its values is a distance. */
  lemma {:induction false} DistMeaning<L>(E: set<(L, L)>, s: L, k: nat)
    ensures Dist(E, s, k).Keys == Within(E, s, k)
    ensures AllDistances(E, s, Dist(E, s, k))
  {
    if k > 0 {
      DistMeaning(E, s, k - 1);
      WithinMonotone(E, s, k - 1, k);
      DistStep(E, s, k, Dist(E, s, k - 1), Layer(E, s, k));
    }
  }

  /** One round of `Dist` keeps every entry a distance. */
  lemma DistStep<L>(E: set<(L, L)>, s: L, k: nat, prev: map<L, nat>, layer: set<L>)
    requires k > 0
    requires prev.Keys == Within(E, s, k - 1) && AllDistances(E, s, prev)
    requires Within(E, s, k - 1) <= Within(E, s, k)
    requires layer == Within(E, s, k) - Within(E, s, k - 1)
    ensures (prev + map t | t in layer :: k).Keys == Within(E, s, k)
    ensures AllDistances(E, s, prev + map t | t in layer :: k)
  {
    var m := prev + map t | t in layer :: k;
    assert m.Keys == prev.Keys + layer;
    forall t | t in m ensures IsDistance(E, s, t, m[t]) {
      if t !in layer {
        assert m[t] == prev[t];
      }
    }
  }

  /** Breadth-first search from `s`: the nodes it reaches, each with its
      shortest distance. */
  method Bfs<L(==,!new), D>(G: DiGraph<L, D>, s: L) returns (dist: map<L, nat>)
    requires G.Valid()
    ensures forall t :: t in dist <==> Reachable(G.edges, s, t)
    ensures forall t :: t in dist ==> IsDistance(G.edges, s, t, dist[t])
    ensures dist.Keys <= G.nodes + {s}
  {
    var k;
    dist, k := ExpandAll(G, s);
    ClosedLast(G.edges, s, k);
  }

  /** The rounds of the search, until a round adds no node. */
  method ExpandAll<L(==,!new), D>(G: DiGraph<L, D>, s: L) returns (dist: map<L, nat>, k: nat)
    requires G.Valid()
    ensures k > 0
    ensures dist == Dist(G.edges, s, k)
    ensures dist.Keys == Within(G.edges, s, k) && AllDistances(G.edges, s, dist)
    ensures Within(G.edges, s, k) == Within(G.edges, s, k - 1)
    ensures dist.Keys <= G.nodes + {s}
  {
    dist := map[s := 0];
    var frontier := {s};
    var r := 0;
    ghost var N := G.nodes + {s};
    while frontier != {}
      invariant dist == Dist(G.edges, s, r)
      invariant dist.Keys == Within(G.edges, s, r)
      invariant frontier == Within(G.edges, s, r) - (if r == 0 then {} else Within(G.edges, s, r - 1))
      invariant r > 0 || frontier != {}
      invariant dist.Keys <= N
      decreases |N| - |dist.Keys|, |frontier|
    {
      ghost var before := dist.Keys;
      dist, frontier := ExpandLayer(G, s, r, dist, frontier);
      SetFacts.SubsetCard(dist.Keys, N);
      SetFacts.SubsetCard(before, N);
      r := r + 1;
    }
    EmptyFrontier(G.edges, s, r, frontier);
    DistMeaning(G.edges, s, r);
    k := r;
  }

  /** One round of the search: the unvisited successors of the frontier are
      at distance `k + 1`. */
  method ExpandLayer<L(==,!new), D>(G: DiGraph<L, D>, s: L, k: nat, dist: map<L, nat>, frontier: set<L>)
    returns (dist': map<L, nat>, next: set<L>)
    requires G.Valid()
    requires dist == Dist(G.edges, s, k)
    requires dist.Keys == Within(G.edges, s, k)
    requires frontier == Within(G.edges, s, k) - (if k == 0 then {} else Within(G.edges, s, k - 1))
    requires dist.Keys <= G.nodes + {s}
    ensures dist' == Dist(G.edges, s, k + 1)
    ensures dist'.Keys == Within(G.edges, s, k + 1)
    ensures next == Within(G.edges, s, k + 1) - Within(G.edges, s, k)
    ensures dist'.Keys <= G.nodes + {s}
    ensures next != {} ==> |dist'.Keys| > |dist.Keys|
  {
    next := (set e | e in G.edges && e.0 in frontier :: e.1) - dist.Keys;
    StepInside(G.edges, G.nodes, frontier);
    LayerFacts(G.edges, s, k, dist, frontier, next);
    dist' := dist + map t | t in next :: k + 1;
    if next != {} {
      assert |dist'.Keys| == |dist.Keys| + |next|;
    }
  }

  /** Edges that end inside `N` lead from any set into `N`. */
  lemma StepInside<L>(E: set<(L, L)>, N: set<L>, S: set<L>)
    requires forall e :: e in E ==> e.0 in N && e.1 in N
    ensures Step(E, S) <= N
  {
  }

  /** The facts about layer `k + 1` that one round of the search relies on. */
  lemma LayerFacts<L>(E: set<(L, L)>, s: L, k: nat, dist: map<L, nat>, frontier: set<L>, next: set<L>)
    requires dist == Dist(E, s, k) && dist.Keys == Within(E, s, k)
    requires frontier == Within(E, s, k) - (if k == 0 then {} else Within(E, s, k - 1))
    requires next == Step(E, frontier) - Within(E, s, k)
    ensures Within(E, s, k + 1) == Within(E, s, k) + next
    ensures next == Within(E, s, k + 1) - Within(E, s, k)
    ensures dist + (map t | t in next :: k + 1) == Dist(E, s, k + 1)
    ensures (dist + map t | t in next :: k + 1).Keys == dist.Keys + next
  {
    if k > 0 {
      FrontierStep(E, s, k, frontier);
    }
    DistRound(E, s, k, dist, next);
  }

  /** Adding the next layer at `k + 1` is one more round of `Dist`. */
  lemma DistRound<L>(E: set<(L, L)>, s: L, k: nat, dist: map<L, nat>, next: set<L>)
    requires dist == Dist(E, s, k)
    requires next == Layer(E, s, k + 1)
    ensures dist + (map t | t in next :: k + 1) == Dist(E, s, k + 1)
    ensures (dist + map t | t in next :: k + 1).Keys == dist.Keys + next
  {
  }

  /** An empty frontier means the last layer added nothing. */
  lemma EmptyFrontier<L>(E: set<(L, L)>, s: L, k: nat, frontier: set<L>)
    requires k > 0
    requires frontier == Within(E, s, k) - Within(E, s, k - 1)
    requires frontier == {}
    ensures Within(E, s, k) == Within(E, s, k - 1)
  {
    WithinMonotone(E, s, k - 1, k);
    assert Within(E, s, k) == Within(E, s, k - 1) + frontier;
  }

  /** When the layers stop growing, the end of any walk from `s` is in them. */
  lemma ClosedAt<L>(E: set<(L, L)>, s: L, j: nat, t: L, p: seq<L>)
    requires Within(E, s, j + 1) == Within(E, s, j)
    requires WalkBetween(E, s, t, p)
    ensures t in Within(E, s, j)
  {
    WalkInWithin(E, s, p);
    StableContains(E, s, j, |p| - 1);
  }

  /** When layer `j + 1` adds nothing, layer `j` contains every layer. */
  lemma StableContains<L>(E: set<(L, L)>, s: L, j: nat, n: nat)
    requires Within(E, s, j + 1) == Within(E, s, j)
    ensures Within(E, s, n) <= Within(E, s, j)
  {
    if n <= j {
      WithinMonotone(E, s, n, j);
    } else {
      WithinStable(E, s, j, n);
    }
  }

  /** When the layers stop growing, they hold every reachable node. */
  lemma Closed<L(!new)>(E: set<(L, L)>, s: L, j: nat)
    requires Within(E, s, j + 1) == Within(E, s, j)
    ensures forall t :: t in Within(E, s, j + 1) <==> Reachable(E, s, t)
  {
    forall t | t in Within(E, s, j + 1) ensures Reachable(E, s, t) {
      WithinHasWalk(E, s, j + 1, t);
    }
    forall t | Reachable(E, s, t) ensures t in Within(E, s, j + 1) {
      var p :| WalkBetween(E, s, t, p);
      ClosedAt(E, s, j, t, p);
    }
  }

  /** `Closed` for the last round `k` of the search. */
  lemma ClosedLast<L(!new)>(E: set<(L, L)>, s: L, k: nat)
    requires k > 0 && Within(E, s, k) == Within(E, s, k - 1)
    ensures forall t :: t in Within(E, s, k) <==> Reachable(E, s, t)
  {
    var j := k - 1;
    assert j + 1 == k;
    Closed(E, s, j);
  }

  /** A distance is also the length of a shortest walk. */
  lemma DistanceIsShortest<L>(E: set<(L, L)>, s: L, t: L, d: nat, p: seq<L>)
    requires IsDistance(E, s, t, d)
    requires WalkBetween(E, s, t, p)
    ensures d <= |p| - 1
  {
    WalkInWithin(E, s, p);
    if |p| - 1 < d {
      WithinMonotone(E, s, |p| - 1, d - 1);
    }
  }

  /** A node has one distance from `s`. */
  lemma DistanceUnique<L>(E: set<(L, L)>, s: L, t: L, d1: nat, d2: nat)
    requires IsDistance(E, s, t, d1) && IsDistance(E, s, t, d2)
    ensures d1 == d2
  {
    if d1 < d2 {
      WithinMonotone(E, s, d1, d2 - 1);
    } else if d2 < d1 {
      WithinMonotone(E, s, d2, d1 - 1);
    }
  }

  /** A walk that starts inside a set no edge leaves stays inside it. */
  lemma {:induction false} WalkStaysIn<L>(E: set<(L, L)>, inside: L -> bool, p: seq<L>)
    requires forall e :: e in E && inside(e.0) ==> inside(e.1)
    requires IsWalk(E, p) && inside(p[0])
    ensures inside(p[|p| - 1])
  {
    if |p| > 1 {
      var q := p[..|p| - 1];
      assert IsWalk(E, q) by {
        forall i | 0 <= i < |q| - 1 ensures (q[i], q[i + 1]) in E {
          assert q[i] == p[i] && q[i + 1] == p[i + 1];
        }
      }
      WalkStaysIn(E, inside, q);
      assert (p[|p| - 2], p[|p| - 1]) in E;
    }
  }
}
