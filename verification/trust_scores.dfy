/** Indirect trust: the depth-bounded search over inbound trust edges. */
module TrustScores {

  datatype Edge = Edge(truster: string, trustee: string, weight: int)

  /** One contribution, before it is rounded for display. */
  datatype Path = Path(truster: string, hop: nat, contribution: real)

  /** The inbound edge of its `trustee` that a path came from: position of that node in the order of
      discovery, and position of the edge among the inbound edges of that node. */
  datatype Claim = Claim(parent: nat, edge: nat)

  datatype TrustScore = TrustScore(score: real, direct: seq<(string, int)>, paths: seq<Path>)

  function Power(base: real, n: nat): real
  {
    if n == 0 then 1.0 else base * Power(base, n - 1)
  }

  /** A power is a product of that many factors. */
  lemma {:induction false} PowerLaws(base: real, m: nat, n: nat)
    ensures Power(base, 0) == 1.0 && Power(base, 1) == base
    ensures Power(base, m + n) == Power(base, m) * Power(base, n)
  {
    if m > 0 {
      PowerLaws(base, m - 1, n);
    }
  }

  function Total(paths: seq<Path>): real
  {
    if paths == [] then 0.0 else Total(paths[..|paths| - 1]) + paths[|paths| - 1].contribution
  }

  // ------------------------------------------------------------ trust graph

  /** A chain of exactly `k` trust edges leads from `x` to the target. */
  ghost predicate Walk(edges: seq<Edge>, target: string, x: string, k: nat)
    decreases k
  {
    if k == 0 then x == target
    else exists e :: e in edges && e.truster == x && Walk(edges, target, e.trustee, k - 1)
  }

  /** The shortest chain from `x` to the target has `k` edges. */
  ghost predicate Distance(edges: seq<Edge>, target: string, x: string, k: nat)
  {
    Walk(edges, target, x, k) && forall j: nat | j < k :: !Walk(edges, target, x, j)
  }

  /** The inbound edges of a node, in the order of the edge list. */
  function InboundOf(edges: seq<Edge>, node: string): seq<(string, int)>
  {
    if edges == [] then []
    else
      var last := edges[|edges| - 1];
      InboundOf(edges[..|edges| - 1], node) + if last.trustee == node then [(last.truster, last.weight)] else []
  }

  lemma {:induction false} InboundMeaning(edges: seq<Edge>, node: string, truster: string, weight: int)
    ensures (truster, weight) in InboundOf(edges, node) <==> Edge(truster, node, weight) in edges
  {
    if edges != [] {
      var front := edges[..|edges| - 1];
      InboundMeaning(front, node, truster, weight);
      assert edges == front + [edges[|edges| - 1]];
    }
  }

  function Lookup(inbound: map<string, seq<(string, int)>>, node: string): seq<(string, int)>
  {
    if node in inbound then inbound[node] else []
  }

  method GroupInbound(edges: seq<Edge>) returns (inbound: map<string, seq<(string, int)>>)
    ensures forall node :: Lookup(inbound, node) == InboundOf(edges, node)
  {
    inbound := map[];
    for n := 0 to |edges|
      invariant forall node :: Lookup(inbound, node) == InboundOf(edges[..n], node)
    {
      var e := edges[n];
      assert edges[..n + 1][..n] == edges[..n];
      inbound := inbound[e.trustee := Lookup(inbound, e.trustee) + [(e.truster, e.weight)]];
    }
    assert edges[..|edges|] == edges;
  }

  // --------------------------------------------------------- discovery order

  /** The nodes in the order they were found: the target first. */
  function NodeAt(target: string, paths: seq<Path>, i: nat): string
    requires i <= |paths|
  {
    if i == 0 then target else paths[i - 1].truster
  }

  function HopAt(paths: seq<Path>, i: nat): nat
    requires i <= |paths|
  {
    if i == 0 then 0 else paths[i - 1].hop
  }

  ghost predicate Trusts(edges: seq<Edge>, x: string, node: string)
  {
    exists w :: (x, w) in InboundOf(edges, node)
  }

  /** The node found at `i` was found through claim `c`, and no earlier edge could have found it. */
  ghost predicate ClaimedBy(edges: seq<Edge>, target: string, decay: real, paths: seq<Path>, i: nat, c: Claim)
    requires i < |paths|
  {
    var p := paths[i];
    && c.parent <= i
    && var inbound := InboundOf(edges, NodeAt(target, paths, c.parent));
    && c.edge < |inbound|
    && inbound[c.edge].0 == p.truster
    && p.hop == HopAt(paths, c.parent) + 1
    && p.contribution == inbound[c.edge].1 as real * Power(decay, p.hop)
    && (forall e | 0 <= e < c.edge :: inbound[e].0 != p.truster)
    && (forall j | 0 <= j < c.parent :: !Trusts(edges, p.truster, NodeAt(target, paths, j)))
  }

  predicate Before(c: Claim, d: Claim)
  {
    c.parent < d.parent || (c.parent == d.parent && c.edge < d.edge)
  }

  ghost predicate AllDifferent(target: string, paths: seq<Path>)
  {
    forall i, j | 0 <= i < j <= |paths| :: NodeAt(target, paths, i) != NodeAt(target, paths, j)
  }

  ghost predicate Found(paths: seq<Path>, x: string)
  {
    exists i :: 0 <= i < |paths| && paths[i].truster == x
  }

  ghost predicate AllClaimed(edges: seq<Edge>, target: string, decay: real, paths: seq<Path>, claims: seq<Claim>)
  {
    && |claims| == |paths|
    && (forall i | 0 <= i < |paths| :: ClaimedBy(edges, target, decay, paths, i, claims[i]))
    && (forall i, j | 0 <= i < j < |claims| :: Before(claims[i], claims[j]))
  }

  /** What the search reports: every other node within `depth` once, at its distance, through the first
      edge that reaches it, in the order of those edges. */
  ghost predicate Reported(edges: seq<Edge>, target: string, depth: int, decay: real, paths: seq<Path>, claims: seq<Claim>)
  {
    && AllDifferent(target, paths)
    && (forall i | 0 <= i < |paths| ::
          1 <= paths[i].hop <= depth && Distance(edges, target, paths[i].truster, paths[i].hop))
    && (forall x, k: nat | x != target && k <= depth && Walk(edges, target, x, k) :: Found(paths, x))
    && AllClaimed(edges, target, decay, paths, claims)
  }

  // -------------------------------------------------------- search invariant

  /** `visited` is the list of found nodes with their hops, and hops never decrease along it. */
  ghost predicate Placed(target: string, paths: seq<Path>, visited: map<string, nat>)
  {
    && AllDifferent(target, paths)
    && (forall i | 0 <= i <= |paths| ::
          NodeAt(target, paths, i) in visited && visited[NodeAt(target, paths, i)] == HopAt(paths, i))
    && (forall x | x in visited :: x == target || Found(paths, x))
    && (forall i, j | 0 <= i <= j <= |paths| :: HopAt(paths, i) <= HopAt(paths, j))
  }

  ghost predicate Reaching(edges: seq<Edge>, target: string, depth: int, paths: seq<Path>)
  {
    && (forall i | 0 <= i < |paths| :: 1 <= paths[i].hop <= depth)
    && (forall i | 0 <= i <= |paths| :: Walk(edges, target, NodeAt(target, paths, i), HopAt(paths, i)))
  }

  /** The first `n` trusters of a list have all been found, at hop `hop` or closer. */
  ghost predicate Covered(inbound: seq<(string, int)>, n: nat, visited: map<string, nat>, hop: nat)
    requires n <= |inbound|
  {
    forall e | 0 <= e < n :: inbound[e].0 in visited && visited[inbound[e].0] <= hop
  }

  ghost predicate Expanded(edges: seq<Edge>, node: string, visited: map<string, nat>, hop: nat)
  {
    Covered(InboundOf(edges, node), |InboundOf(edges, node)|, visited, hop)
  }

  /** The first `head` found nodes within the depth have been expanded. */
  ghost predicate Closed(edges: seq<Edge>, target: string, depth: int, paths: seq<Path>, visited: map<string, nat>, head: nat)
    requires head <= |paths| + 1
  {
    forall i | 0 <= i < head && HopAt(paths, i) < depth ::
      Expanded(edges, NodeAt(target, paths, i), visited, HopAt(paths, i) + 1)
  }

  /** The queue holds the found nodes from `head` on, with their hops. */
  ghost predicate Queued(target: string, paths: seq<Path>, queue: seq<(string, nat)>, head: nat)
    requires head <= |paths| + 1
  {
    && |queue| == |paths| + 1 - head
    && (forall i | 0 <= i < |queue| ::
          queue[i] == (NodeAt(target, paths, head + i), HopAt(paths, head + i)))
    && (head <= |paths| ==> HopAt(paths, |paths|) <= HopAt(paths, head) + 1)
  }

  ghost predicate ClaimsBelow(claims: seq<Claim>, c: Claim)
  {
    forall i | 0 <= i < |claims| :: Before(claims[i], c)
  }

  // ------------------------------------------------------------- shortest hop

  /** Once everything found is expanded, no chain within the depth is shorter than the hop recorded. */
  lemma {:induction false} ClosedIsShortest(edges: seq<Edge>, target: string, depth: int, paths: seq<Path>,
                                            visited: map<string, nat>, x: string, k: nat)
    requires Placed(target, paths, visited) && Closed(edges, target, depth, paths, visited, |paths| + 1)
    requires Walk(edges, target, x, k) && k <= depth
    ensures x in visited && visited[x] <= k
    decreases k
  {
    if k == 0 {
      assert NodeAt(target, paths, 0) == x;
    } else {
      var e :| e in edges && e.truster == x && Walk(edges, target, e.trustee, k - 1);
      ClosedIsShortest(edges, target, depth, paths, visited, e.trustee, k - 1);
      var y := e.trustee;
      var i: nat :| i <= |paths| && NodeAt(target, paths, i) == y by {
        if y == target { assert NodeAt(target, paths, 0) == y; } else {
          var n :| 0 <= n < |paths| && paths[n].truster == y;
          assert NodeAt(target, paths, n + 1) == y;
        }
      }
      assert Expanded(edges, y, visited, HopAt(paths, i) + 1);
      InboundMeaning(edges, y, x, e.weight);
      var n :| 0 <= n < |InboundOf(edges, y)| && InboundOf(edges, y)[n] == (x, e.weight);
      assert InboundOf(edges, y)[n].0 in visited;
    }
  }

  lemma FinishedIsReported(edges: seq<Edge>, target: string, depth: int, decay: real, paths: seq<Path>,
                           claims: seq<Claim>, visited: map<string, nat>)
    requires Placed(target, paths, visited) && Reaching(edges, target, depth, paths)
    requires Closed(edges, target, depth, paths, visited, |paths| + 1)
    requires AllClaimed(edges, target, decay, paths, claims)
    ensures Reported(edges, target, depth, decay, paths, claims)
  {
    forall i | 0 <= i < |paths| ensures Distance(edges, target, paths[i].truster, paths[i].hop) {
      assert NodeAt(target, paths, i + 1) == paths[i].truster;
      forall j: nat | j < paths[i].hop && Walk(edges, target, paths[i].truster, j) ensures false {
        ClosedIsShortest(edges, target, depth, paths, visited, paths[i].truster, j);
      }
    }
    forall x, k: nat | x != target && k <= depth && Walk(edges, target, x, k) ensures Found(paths, x) {
      ClosedIsShortest(edges, target, depth, paths, visited, x, k);
    }
  }

  // ---------------------------------------------------------- one discovery

  lemma AppendKeepsNodes(target: string, paths: seq<Path>, p: Path)
    ensures forall i | 0 <= i <= |paths| :: NodeAt(target, paths + [p], i) == NodeAt(target, paths, i)
    ensures forall i | 0 <= i <= |paths| :: HopAt(paths + [p], i) == HopAt(paths, i)
    ensures NodeAt(target, paths + [p], |paths| + 1) == p.truster && HopAt(paths + [p], |paths| + 1) == p.hop
  {
  }

  /** A new truster extends the list of found nodes. */
  lemma PlacedGrows(target: string, paths: seq<Path>, visited: map<string, nat>, p: Path)
    requires Placed(target, paths, visited)
    requires p.truster !in visited && HopAt(paths, |paths|) <= p.hop
    ensures Placed(target, paths + [p], visited[p.truster := p.hop])
  {
    AppendKeepsNodes(target, paths, p);
    var paths', visited' := paths + [p], visited[p.truster := p.hop];
    forall x | x in visited' ensures x == target || Found(paths', x) {
      if x == p.truster {
        assert paths'[|paths|].truster == x;
      } else if x != target {
        var i :| 0 <= i < |paths| && paths[i].truster == x;
        assert paths'[i].truster == x;
      }
    }
  }

  /** A truster of the node at `head` is one hop further from the target. */
  lemma ReachingGrows(edges: seq<Edge>, target: string, depth: int, paths: seq<Path>, head: nat, weight: int, p: Path)
    requires Reaching(edges, target, depth, paths)
    requires head <= |paths| && HopAt(paths, head) < depth && p.hop == HopAt(paths, head) + 1
    requires (p.truster, weight) in InboundOf(edges, NodeAt(target, paths, head))
    ensures Reaching(edges, target, depth, paths + [p])
  {
    AppendKeepsNodes(target, paths, p);
    var node := NodeAt(target, paths, head);
    InboundMeaning(edges, node, p.truster, weight);
    assert Walk(edges, target, p.truster, p.hop) by {
      var e := Edge(p.truster, node, weight);
      assert e in edges && Walk(edges, target, e.trustee, p.hop - 1);
    }
  }

  /** Nodes that were expanded stay expanded when a new node is found. */
  lemma ClosedPersists(edges: seq<Edge>, target: string, depth: int, paths: seq<Path>, visited: map<string, nat>,
                       head: nat, p: Path)
    requires head <= |paths| && Closed(edges, target, depth, paths, visited, head)
    requires p.truster !in visited
    ensures Closed(edges, target, depth, paths + [p], visited[p.truster := p.hop], head)
  {
    var paths', visited' := paths + [p], visited[p.truster := p.hop];
    forall i | 0 <= i < head && HopAt(paths', i) < depth
      ensures Expanded(edges, NodeAt(target, paths', i), visited', HopAt(paths', i) + 1)
    {
      assert NodeAt(target, paths', i) == NodeAt(target, paths, i) && HopAt(paths', i) == HopAt(paths, i);
      assert Expanded(edges, NodeAt(target, paths, i), visited, HopAt(paths, i) + 1);
    }
  }

  /** The edge that finds a new node is the first that could: all edges before it lead to found nodes. */
  lemma FirstClaim(edges: seq<Edge>, target: string, depth: int, decay: real, paths: seq<Path>, visited: map<string, nat>,
                   head: nat, e: nat, p: Path)
    requires head <= |paths| && Placed(target, paths, visited)
    requires Closed(edges, target, depth, paths, visited, head) && HopAt(paths, head) < depth
    requires var inbound := InboundOf(edges, NodeAt(target, paths, head));
             && e < |inbound| && Covered(inbound, e, visited, HopAt(paths, head) + 1)
             && inbound[e].0 == p.truster
             && p.contribution == inbound[e].1 as real * Power(decay, p.hop)
    requires p.truster !in visited && p.hop == HopAt(paths, head) + 1
    ensures ClaimedBy(edges, target, decay, paths + [p], |paths|, Claim(head, e))
  {
    var paths' := paths + [p];
    AppendKeepsNodes(target, paths, p);
    forall j | 0 <= j < head ensures !Trusts(edges, p.truster, NodeAt(target, paths', j)) {
      assert HopAt(paths, j) <= HopAt(paths, head);
      assert Expanded(edges, NodeAt(target, paths, j), visited, HopAt(paths, j) + 1);
    }
  }

  lemma ClaimsPersist(edges: seq<Edge>, target: string, decay: real, paths: seq<Path>, claims: seq<Claim>, p: Path, c: Claim)
    requires AllClaimed(edges, target, decay, paths, claims) && ClaimsBelow(claims, c)
    requires ClaimedBy(edges, target, decay, paths + [p], |paths|, c)
    ensures AllClaimed(edges, target, decay, paths + [p], claims + [c])
  {
    var paths' := paths + [p];
    AppendKeepsNodes(target, paths, p);
    forall i | 0 <= i < |paths'| ensures ClaimedBy(edges, target, decay, paths', i, (claims + [c])[i]) {
      if i < |paths| {
        assert ClaimedBy(edges, target, decay, paths, i, claims[i]);
      }
    }
  }

  datatype Aspect = Sums | Places | Reaches | Closes | Queues | Claims

  ghost predicate Holds(x: Aspect, edges: seq<Edge>, target: string, depth: int, decay: real, score: real, paths: seq<Path>,
                        visited: map<string, nat>, queue: seq<(string, nat)>, claims: seq<Claim>, head: nat, next: Claim)
    requires head <= |paths| + 1
  {
    match x
    case Sums => score == Total(paths)
    case Places => Placed(target, paths, visited)
    case Reaches => Reaching(edges, target, depth, paths)
    case Closes => Closed(edges, target, depth, paths, visited, head)
    case Queues => Queued(target, paths, queue, head)
    case Claims => AllClaimed(edges, target, decay, paths, claims) && ClaimsBelow(claims, next)
  }

  /** The state of the search: nodes before `head` are expanded, and claims lie below `next`. */
  ghost predicate Searching(edges: seq<Edge>, target: string, depth: int, decay: real, score: real, paths: seq<Path>,
                            visited: map<string, nat>, queue: seq<(string, nat)>, claims: seq<Claim>, head: nat, next: Claim)
  {
    && head <= |paths| + 1
    && forall x: Aspect :: Holds(x, edges, target, depth, decay, score, paths, visited, queue, claims, head, next)
  }

  lemma FoundIsClose(target: string, paths: seq<Path>, visited: map<string, nat>, head: nat, x: string)
    requires Placed(target, paths, visited) && head <= |paths|
    requires HopAt(paths, |paths|) <= HopAt(paths, head) + 1
    ensures x in visited ==> visited[x] <= HopAt(paths, head) + 1
  {
    if x in visited && x != target {
      var i :| 0 <= i < |paths| && paths[i].truster == x;
      assert NodeAt(target, paths, i + 1) == x;
    } else {
      assert NodeAt(target, paths, 0) == target;
    }
  }

  lemma QueueGrows(target: string, paths: seq<Path>, queue: seq<(string, nat)>, head: nat, p: Path)
    requires head <= |paths| && Queued(target, paths, queue, head) && p.hop == HopAt(paths, head) + 1
    ensures Queued(target, paths + [p], queue + [(p.truster, p.hop)], head)
  {
    AppendKeepsNodes(target, paths, p);
  }

  lemma QueueAdvances(target: string, paths: seq<Path>, queue: seq<(string, nat)>, head: nat)
    requires head <= |paths| && Queued(target, paths, queue, head)
    requires forall i, j | 0 <= i <= j <= |paths| :: HopAt(paths, i) <= HopAt(paths, j)
    ensures Queued(target, paths, queue[1..], head + 1)
  {
  }

  /** An edge of the node at `head` to a node that is not found yet: the state after recording it. */
  lemma Discover(edges: seq<Edge>, target: string, depth: int, decay: real, score: real, paths: seq<Path>,
                 visited: map<string, nat>, queue: seq<(string, nat)>, claims: seq<Claim>, head: nat, e: nat, p: Path)
    requires Searching(edges, target, depth, decay, score, paths, visited, queue, claims, head, Claim(head, e))
    requires head <= |paths| && HopAt(paths, head) < depth && p.hop == HopAt(paths, head) + 1
    requires var inbound := InboundOf(edges, NodeAt(target, paths, head));
             && e < |inbound| && Covered(inbound, e, visited, p.hop)
             && inbound[e].0 == p.truster && p.contribution == inbound[e].1 as real * Power(decay, p.hop)
    requires p.truster !in visited
    ensures Searching(edges, target, depth, decay, score + p.contribution, paths + [p], visited[p.truster := p.hop],
                      queue + [(p.truster, p.hop)], claims + [Claim(head, e)], head, Claim(head, e + 1))
  {
    var inbound := InboundOf(edges, NodeAt(target, paths, head));
    assert inbound[e] in inbound;
    assert Holds(Sums, edges, target, depth, decay, score, paths, visited, queue, claims, head, Claim(head, e))
        && Holds(Places, edges, target, depth, decay, score, paths, visited, queue, claims, head, Claim(head, e))
        && Holds(Reaches, edges, target, depth, decay, score, paths, visited, queue, claims, head, Claim(head, e))
        && Holds(Closes, edges, target, depth, decay, score, paths, visited, queue, claims, head, Claim(head, e))
        && Holds(Queues, edges, target, depth, decay, score, paths, visited, queue, claims, head, Claim(head, e))
        && Holds(Claims, edges, target, depth, decay, score, paths, visited, queue, claims, head, Claim(head, e));
    PlacedGrows(target, paths, visited, p);
    ReachingGrows(edges, target, depth, paths, head, inbound[e].1, p);
    ClosedPersists(edges, target, depth, paths, visited, head, p);
    FirstClaim(edges, target, depth, decay, paths, visited, head, e, p);
    ClaimsPersist(edges, target, decay, paths, claims, p, Claim(head, e));
    QueueGrows(target, paths, queue, head, p);
    assert (paths + [p])[..|paths|] == paths;
    assert AllClaimed(edges, target, decay, paths + [p], claims + [Claim(head, e)]);
  }

  /** An edge to a node that was found at most as far away: nothing to record. */
  lemma Skip(edges: seq<Edge>, target: string, depth: int, decay: real, score: real, paths: seq<Path>,
             visited: map<string, nat>, queue: seq<(string, nat)>, claims: seq<Claim>, head: nat, e: nat)
    requires Searching(edges, target, depth, decay, score, paths, visited, queue, claims, head, Claim(head, e))
    ensures Searching(edges, target, depth, decay, score, paths, visited, queue, claims, head, Claim(head, e + 1))
  {
    var next := Claim(head, e + 1);
    forall x: Aspect ensures Holds(x, edges, target, depth, decay, score, paths, visited, queue, claims, head, next) {
      assert Holds(x, edges, target, depth, decay, score, paths, visited, queue, claims, head, Claim(head, e));
    }
  }

  /** The node at `head` is done: it is expanded, or too far away to be. */
  lemma Advance(edges: seq<Edge>, target: string, depth: int, decay: real, score: real, paths: seq<Path>,
                visited: map<string, nat>, queue: seq<(string, nat)>, claims: seq<Claim>, head: nat, e: nat)
    requires Searching(edges, target, depth, decay, score, paths, visited, queue, claims, head, Claim(head, e))
    requires head <= |paths|
    requires HopAt(paths, head) < depth ==> Expanded(edges, NodeAt(target, paths, head), visited, HopAt(paths, head) + 1)
    ensures queue != []
    ensures Searching(edges, target, depth, decay, score, paths, visited, queue[1..], claims, head + 1, Claim(head + 1, 0))
  {
    assert Holds(Places, edges, target, depth, decay, score, paths, visited, queue, claims, head, Claim(head, e))
        && Holds(Queues, edges, target, depth, decay, score, paths, visited, queue, claims, head, Claim(head, e));
    QueueAdvances(target, paths, queue, head);
    var queue', head', next := queue[1..], head + 1, Claim(head + 1, 0);
    forall x: Aspect ensures Holds(x, edges, target, depth, decay, score, paths, visited, queue', claims, head', next) {
      assert Holds(x, edges, target, depth, decay, score, paths, visited, queue, claims, head, Claim(head, e));
    }
  }

  lemma HeadOfQueue(edges: seq<Edge>, target: string, depth: int, decay: real, score: real, paths: seq<Path>,
                    visited: map<string, nat>, queue: seq<(string, nat)>, claims: seq<Claim>, head: nat, next: Claim)
    requires Searching(edges, target, depth, decay, score, paths, visited, queue, claims, head, next)
    ensures |queue| == |paths| + 1 - head
    ensures queue != [] ==> queue[0] == (NodeAt(target, paths, head), HopAt(paths, head))
  {
    assert Holds(Queues, edges, target, depth, decay, score, paths, visited, queue, claims, head, next);
  }

  lemma UnfoundIsNew(edges: seq<Edge>, target: string, depth: int, decay: real, score: real, paths: seq<Path>,
                     visited: map<string, nat>, queue: seq<(string, nat)>, claims: seq<Claim>, head: nat, next: Claim, x: string)
    requires Searching(edges, target, depth, decay, score, paths, visited, queue, claims, head, next) && head <= |paths|
    requires !(x in visited && visited[x] <= HopAt(paths, head) + 1)
    ensures x !in visited
  {
    assert Holds(Places, edges, target, depth, decay, score, paths, visited, queue, claims, head, next)
        && Holds(Queues, edges, target, depth, decay, score, paths, visited, queue, claims, head, next);
    FoundIsClose(target, paths, visited, head, x);
  }

  lemma SearchEnds(edges: seq<Edge>, target: string, depth: int, decay: real, score: real, paths: seq<Path>,
                   visited: map<string, nat>, claims: seq<Claim>, head: nat, next: Claim)
    requires Searching(edges, target, depth, decay, score, paths, visited, [], claims, head, next)
    ensures Reported(edges, target, depth, decay, paths, claims) && score == Total(paths)
  {
    assert Holds(Queues, edges, target, depth, decay, score, paths, visited, [], claims, head, next)
        && Holds(Places, edges, target, depth, decay, score, paths, visited, [], claims, head, next)
        && Holds(Reaches, edges, target, depth, decay, score, paths, visited, [], claims, head, next)
        && Holds(Closes, edges, target, depth, decay, score, paths, visited, [], claims, head, next)
        && Holds(Claims, edges, target, depth, decay, score, paths, visited, [], claims, head, next)
        && Holds(Sums, edges, target, depth, decay, score, paths, visited, [], claims, head, next);
    FinishedIsReported(edges, target, depth, decay, paths, claims, visited);
  }

  // ------------------------------------------------------------- the search

  function Trusters(edges: seq<Edge>): set<string>
  {
    set e | e in edges :: e.truster
  }

  lemma InboundIsTruster(edges: seq<Edge>, node: string, e: nat)
    requires e < |InboundOf(edges, node)|
    ensures InboundOf(edges, node)[e].0 in Trusters(edges)
  {
    var (truster, weight) := InboundOf(edges, node)[e];
    assert (truster, weight) in InboundOf(edges, node);
    InboundMeaning(edges, node, truster, weight);
    assert Edge(truster, node, weight).truster in Trusters(edges);
  }

  /** The search ends: a round either finds a node or leaves the queue shorter. */
  ghost predicate Progress(all: set<string>, seen: set<string>, waiting: nat, seen': set<string>, waiting': nat)
  {
    seen <= seen' <= seen + all && (seen' == seen ==> waiting' == waiting)
  }

  lemma ProgressDecreases(all: set<string>, seen: set<string>, waiting: nat, seen': set<string>, waiting': nat)
    requires Progress(all, seen, waiting, seen', waiting')
    ensures |all - seen'| < |all - seen| || (|all - seen'| == |all - seen| && waiting' == waiting)
  {
    assert all - seen == (all - seen') + (seen' - seen);
  }

  /** Expands one node: appends every truster that has not been found yet. */
  method Expand(edges: seq<Edge>, target: string, depth: int, decay: real, ghost head: nat, hop: nat,
                inbound: seq<(string, int)>, score: real, paths: seq<Path>, visited: map<string, nat>,
                queue: seq<(string, nat)>, ghost front: seq<(string, nat)>, ghost claims: seq<Claim>)
    returns (score': real, paths': seq<Path>, visited': map<string, nat>, queue': seq<(string, nat)>, ghost claims': seq<Claim>)
    requires Searching(edges, target, depth, decay, score, paths, visited, front + queue, claims, head, Claim(head, 0))
    requires head <= |paths| && hop == HopAt(paths, head) < depth && |front| == 1
    requires inbound == InboundOf(edges, NodeAt(target, paths, head))
    ensures Searching(edges, target, depth, decay, score', paths', visited', queue', claims', head + 1, Claim(head + 1, 0))
    ensures Progress(Trusters(edges), visited.Keys, |queue|, visited'.Keys, |queue'|)
  {
    score', paths', visited', queue', claims' := score, paths, visited, queue, claims;
    ghost var node := NodeAt(target, paths, head);
    for e := 0 to |inbound|
      invariant head <= |paths'| && NodeAt(target, paths', head) == node && HopAt(paths', head) == hop
      invariant Searching(edges, target, depth, decay, score', paths', visited', front + queue', claims', head, Claim(head, e))
      invariant Covered(inbound, e, visited', hop + 1)
      invariant Progress(Trusters(edges), visited.Keys, |queue|, visited'.Keys, |queue'|)
    {
      var (truster, weight) := inbound[e];
      var nhop := hop + 1;
      if truster in visited' && visited'[truster] <= nhop {
        Skip(edges, target, depth, decay, score', paths', visited', front + queue', claims', head, e);
        continue;
      }
      UnfoundIsNew(edges, target, depth, decay, score', paths', visited', front + queue', claims', head, Claim(head, e), truster);
      InboundIsTruster(edges, node, e);
      ghost var visited0 := visited';
      var p := Path(truster, nhop, weight as real * Power(decay, nhop));
      Discover(edges, target, depth, decay, score', paths', visited', front + queue', claims', head, e, p);
      AppendKeepsNodes(target, paths', p);
      assert front + queue' + [(truster, nhop)] == front + (queue' + [(truster, nhop)]);
      visited' := visited'[truster := nhop];
      score' := score' + p.contribution;
      paths' := paths' + [p];
      queue' := queue' + [(truster, nhop)];
      claims' := claims' + [Claim(head, e)];
      CoveredGrows(inbound, e, visited0, p);
    }
    Advance(edges, target, depth, decay, score', paths', visited', front + queue', claims', head, |inbound|);
    assert (front + queue')[1..] == queue';
  }

  lemma CoveredGrows(inbound: seq<(string, int)>, e: nat, visited: map<string, nat>, p: Path)
    requires e < |inbound| && Covered(inbound, e, visited, p.hop) && inbound[e].0 == p.truster
    ensures Covered(inbound, e + 1, visited[p.truster := p.hop], p.hop)
  {
  }

  lemma SearchStarts(edges: seq<Edge>, target: string, depth: int, decay: real)
    ensures Searching(edges, target, depth, decay, 0.0, [], map[target := 0], [(target, 0)], [], 0, Claim(0, 0))
  {
  }

  /** One turn of the search: takes a node from the queue and expands it, unless it is too deep. */
  method Visit(target: string, edges: seq<Edge>, inbound: map<string, seq<(string, int)>>, depth: int, decay: real, ghost head: nat,
               score: real, paths: seq<Path>, visited: map<string, nat>, queue: seq<(string, nat)>, ghost claims: seq<Claim>)
    returns (score': real, paths': seq<Path>, visited': map<string, nat>, queue': seq<(string, nat)>, ghost claims': seq<Claim>)
    requires forall node :: Lookup(inbound, node) == InboundOf(edges, node)
    requires Searching(edges, target, depth, decay, score, paths, visited, queue, claims, head, Claim(head, 0)) && queue != []
    ensures Searching(edges, target, depth, decay, score', paths', visited', queue', claims', head + 1, Claim(head + 1, 0))
    ensures var left, left' := |Trusters(edges) - visited.Keys|, |Trusters(edges) - visited'.Keys|;
            left' < left || (left' == left && |queue'| < |queue|)
  {
    var (node, hop) := queue[0];
    ghost var front := [queue[0]];
    assert queue == front + queue[1..];
    HeadOfQueue(edges, target, depth, decay, score, paths, visited, queue, claims, head, Claim(head, 0));
    if hop >= depth {
      Advance(edges, target, depth, decay, score, paths, visited, queue, claims, head, 0);
      return score, paths, visited, queue[1..], claims;
    }
    score', paths', visited', queue', claims' :=
      Expand(edges, target, depth, decay, head, hop, Lookup(inbound, node), score, paths, visited, queue[1..], front, claims);
    ProgressDecreases(Trusters(edges), visited.Keys, |queue[1..]|, visited'.Keys, |queue'|);
  }

  /** The search itself: takes nodes from the queue until it is empty. */
  method Search(target: string, edges: seq<Edge>, inbound: map<string, seq<(string, int)>>, depth: int, decay: real)
    returns (score: real, paths: seq<Path>, visited: map<string, nat>, ghost claims: seq<Claim>, ghost head: nat)
    requires forall node :: Lookup(inbound, node) == InboundOf(edges, node)
    ensures Searching(edges, target, depth, decay, score, paths, visited, [], claims, head, Claim(head, 0))
  {
    var queue := [(target, 0)];
    score, paths, visited, claims, head := 0.0, [], map[target := 0], [], 0;
    SearchStarts(edges, target, depth, decay);
    while queue != []
      invariant Searching(edges, target, depth, decay, score, paths, visited, queue, claims, head, Claim(head, 0))
      decreases |Trusters(edges) - visited.Keys|, |queue|
    {
      score, paths, visited, queue, claims :=
        Visit(target, edges, inbound, depth, decay, head, score, paths, visited, queue, claims);
      head := head + 1;
    }
  }

  /** Every path contributes the weight of its edge times a factor: one decay more than its parent's, from
      one at the target. */
  ghost predicate Weighted(edges: seq<Edge>, target: string, decay: real, paths: seq<Path>, claims: seq<Claim>, factors: seq<real>)
  {
    && |claims| == |paths| && |factors| == |paths| + 1 && factors[0] == 1.0
    && forall i | 0 <= i < |paths| :: WeightedAt(edges, target, decay, paths, claims[i], factors, i)
  }

  ghost predicate WeightedAt(edges: seq<Edge>, target: string, decay: real, paths: seq<Path>, c: Claim, factors: seq<real>, i: nat)
    requires i < |paths| && |factors| == |paths| + 1
  {
    && c.parent <= i
    && var inbound := InboundOf(edges, NodeAt(target, paths, c.parent));
    && c.edge < |inbound| && inbound[c.edge].0 == paths[i].truster
    && factors[i + 1] == decay * factors[c.parent]
    && paths[i].contribution == inbound[c.edge].1 as real * factors[i + 1]
  }

  lemma ReportIsWeighted(edges: seq<Edge>, target: string, decay: real, paths: seq<Path>, claims: seq<Claim>)
    returns (factors: seq<real>)
    requires AllClaimed(edges, target, decay, paths, claims)
    ensures Weighted(edges, target, decay, paths, claims, factors)
  {
    factors := seq(|paths| + 1, i requires 0 <= i <= |paths| => Power(decay, HopAt(paths, i)));
    forall i | 0 <= i < |paths| ensures WeightedAt(edges, target, decay, paths, claims[i], factors, i) {
      assert ClaimedBy(edges, target, decay, paths, i, claims[i]);
    }
  }

  /** `trust_score` before rounding. */
  method Score(target: string, edges: seq<Edge>, depth: int := 2, decay: real := 0.5)
    returns (r: TrustScore, ghost claims: seq<Claim>)
    ensures Reported(edges, target, depth, decay, r.paths, claims)
    ensures exists factors :: Weighted(edges, target, decay, r.paths, claims, factors)
    ensures r.score == Total(r.paths)
    ensures r.direct == InboundOf(edges, target)
  {
    var inbound := GroupInbound(edges);
    var score, paths, visited;
    ghost var head;
    score, paths, visited, claims, head := Search(target, edges, inbound, depth, decay);
    SearchEnds(edges, target, depth, decay, score, paths, visited, claims, head, Claim(head, 0));
    r := TrustScore(score, Lookup(inbound, target), paths);
    ghost var factors := ReportIsWeighted(edges, target, decay, paths, claims);
  }

  // ------------------------------------------------------------- uniqueness

  /** The report is determined by the edge list alone: there is only one for each input. */
  lemma ReportIsUnique(edges: seq<Edge>, target: string, depth: int, decay: real,
                       paths: seq<Path>, claims: seq<Claim>, paths': seq<Path>, claims': seq<Claim>)
    requires Reported(edges, target, depth, decay, paths, claims)
    requires Reported(edges, target, depth, decay, paths', claims')
    ensures paths == paths' && claims == claims'
  {
    PrefixesAgree(edges, target, depth, decay, paths, claims, paths', claims', |paths|);
    PrefixesAgree(edges, target, depth, decay, paths', claims', paths, claims, |paths'|);
  }

  lemma {:induction false} PrefixesAgree(edges: seq<Edge>, target: string, depth: int, decay: real,
                                         paths: seq<Path>, claims: seq<Claim>, paths': seq<Path>, claims': seq<Claim>, n: nat)
    requires Reported(edges, target, depth, decay, paths, claims)
    requires Reported(edges, target, depth, decay, paths', claims')
    requires n <= |paths|
    ensures n <= |paths'| && paths[..n] == paths'[..n] && claims[..n] == claims'[..n]
  {
    if n > 0 {
      PrefixesAgree(edges, target, depth, decay, paths, claims, paths', claims', n - 1);
      NextAgrees(edges, target, depth, decay, paths, claims, paths', claims', n - 1);
      OneMoreAgrees(paths, paths', n);
      OneMoreAgrees(claims, claims', n);
    }
  }

  lemma SameNodes(target: string, paths: seq<Path>, paths': seq<Path>, n: nat, i: nat)
    requires i <= n <= |paths| && n <= |paths'| && paths[..n] == paths'[..n]
    ensures NodeAt(target, paths, i) == NodeAt(target, paths', i) && HopAt(paths, i) == HopAt(paths', i)
  {
    if i > 0 {
      assert paths[i - 1] == paths[..n][i - 1] == paths'[..n][i - 1] == paths'[i - 1];
    }
  }

  lemma OneMoreAgrees<T>(a: seq<T>, b: seq<T>, n: nat)
    requires 0 < n <= |a| && n <= |b| && a[..n - 1] == b[..n - 1] && a[n - 1] == b[n - 1]
    ensures a[..n] == b[..n]
  {
    assert a[..n] == a[..n - 1] + [a[n - 1]] && b[..n] == b[..n - 1] + [b[n - 1]];
  }

  lemma NextAgrees(edges: seq<Edge>, target: string, depth: int, decay: real,
                   paths: seq<Path>, claims: seq<Claim>, paths': seq<Path>, claims': seq<Claim>, n: nat)
    requires Reported(edges, target, depth, decay, paths, claims)
    requires Reported(edges, target, depth, decay, paths', claims')
    requires n < |paths| && n <= |paths'| && paths[..n] == paths'[..n]
    ensures n < |paths'| && |claims| == |paths| && |claims'| == |paths'|
    ensures paths[n] == paths'[n] && claims[n] == claims'[n]
  {
    NotLater(edges, target, depth, decay, paths, claims, paths', claims', n);
    NotLater(edges, target, depth, decay, paths', claims', paths, claims, n);
    SamePath(edges, target, decay, paths, claims, paths', claims', n);
  }

  lemma SamePath(edges: seq<Edge>, target: string, decay: real,
                 paths: seq<Path>, claims: seq<Claim>, paths': seq<Path>, claims': seq<Claim>, n: nat)
    requires AllClaimed(edges, target, decay, paths, claims) && AllClaimed(edges, target, decay, paths', claims')
    requires n < |paths| && n < |paths'| && paths[..n] == paths'[..n]
    requires !Before(claims[n], claims'[n]) && !Before(claims'[n], claims[n])
    ensures claims[n] == claims'[n] && paths[n] == paths'[n]
  {
    assert claims[n] == claims'[n];
    assert ClaimedBy(edges, target, decay, paths, n, claims[n]);
    assert ClaimedBy(edges, target, decay, paths', n, claims'[n]);
    SameNodes(target, paths, paths', n, claims[n].parent);
  }

  lemma InboundTrusts(edges: seq<Edge>, node: string, x: string, w: int)
    requires (x, w) in InboundOf(edges, node)
    ensures Trusts(edges, x, node)
  {
  }

  /** A claim on a node is not before the claim that the node was found through. */
  lemma FirstClaimIsFirst(edges: seq<Edge>, target: string, decay: real, paths: seq<Path>, m: nat, c': Claim, c: Claim)
    requires m < |paths| && ClaimedBy(edges, target, decay, paths, m, c')
    requires c.parent <= |paths| && c.edge < |InboundOf(edges, NodeAt(target, paths, c.parent))|
    requires InboundOf(edges, NodeAt(target, paths, c.parent))[c.edge].0 == paths[m].truster
    ensures !Before(c, c')
  {
    var inbound := InboundOf(edges, NodeAt(target, paths, c.parent));
    assert inbound[c.edge] in inbound;
    InboundTrusts(edges, NodeAt(target, paths, c.parent), inbound[c.edge].0, inbound[c.edge].1);
  }

  /** A node found after equal prefixes is found by the other report too, and not in the prefix. */
  lemma FoundLater(edges: seq<Edge>, target: string, depth: int, decay: real,
                   paths: seq<Path>, claims: seq<Claim>, paths': seq<Path>, claims': seq<Claim>, n: nat) returns (m: nat)
    requires Reported(edges, target, depth, decay, paths, claims)
    requires Reported(edges, target, depth, decay, paths', claims')
    requires n < |paths| && n <= |paths'| && paths[..n] == paths'[..n]
    ensures n <= m < |paths'| && paths'[m].truster == paths[n].truster
  {
    var x := paths[n].truster;
    assert NodeAt(target, paths, n + 1) == x && NodeAt(target, paths, 0) == target;
    assert Found(paths', x);
    m :| 0 <= m < |paths'| && paths'[m].truster == x;
    if m < n {
      NotInPrefix(target, paths, paths', n, m);
    }
  }

  lemma NotInPrefix(target: string, paths: seq<Path>, paths': seq<Path>, n: nat, m: nat)
    requires AllDifferent(target, paths) && m < n < |paths| && n <= |paths'| && paths[..n] == paths'[..n]
    ensures paths'[m].truster != paths[n].truster
  {
    SameNodes(target, paths, paths', n, m + 1);
    assert NodeAt(target, paths, m + 1) != NodeAt(target, paths, n + 1);
  }

  /** After equal prefixes, the other report goes on, and not with a later claim. */
  lemma NotLater(edges: seq<Edge>, target: string, depth: int, decay: real,
                 paths: seq<Path>, claims: seq<Claim>, paths': seq<Path>, claims': seq<Claim>, n: nat)
    requires Reported(edges, target, depth, decay, paths, claims)
    requires Reported(edges, target, depth, decay, paths', claims')
    requires n < |paths| && n <= |paths'| && paths[..n] == paths'[..n]
    ensures n < |paths'| && !Before(claims[n], claims'[n])
  {
    var m := FoundLater(edges, target, depth, decay, paths, claims, paths', claims', n);
    ClaimNotLater(edges, target, decay, paths, claims, paths', claims', n, m);
  }

  lemma ClaimNotLater(edges: seq<Edge>, target: string, decay: real,
                      paths: seq<Path>, claims: seq<Claim>, paths': seq<Path>, claims': seq<Claim>, n: nat, m: nat)
    requires AllClaimed(edges, target, decay, paths, claims) && AllClaimed(edges, target, decay, paths', claims')
    requires n < |paths| && n <= m < |paths'| && paths[..n] == paths'[..n] && paths'[m].truster == paths[n].truster
    ensures !Before(claims[n], claims'[n])
  {
    var c := claims[n];
    assert ClaimedBy(edges, target, decay, paths, n, c);
    assert ClaimedBy(edges, target, decay, paths', m, claims'[m]);
    SameNodes(target, paths, paths', n, c.parent);
    FirstClaimIsFirst(edges, target, decay, paths', m, claims'[m], c);
    assert m > n ==> Before(claims'[n], claims'[m]);
  }
}
