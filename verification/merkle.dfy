/** The Merkle root over a set of record ids. */
module Merkle {
  import opened Ordering
  import opened Hashing

  function LeafHash(c: Crypto, id: string): string
  {
    c.sha(BoardLeaf(id))
  }

  function NodeHash(c: Crypto, left: string, right: string): string
  {
    c.sha(BoardNode(left, right))
  }

  function LeafHashes(c: Crypto, ids: seq<string>): seq<string>
  {
    seq(|ids|, i requires 0 <= i < |ids| => LeafHash(c, ids[i]))
  }

  /** One round: neighbours are hashed together and an odd last node is promoted unchanged. */
  function NextLevel(c: Crypto, level: seq<string>): (next: seq<string>)
    ensures |next| == (|level| + 1) / 2
  {
    if |level| < 2 then level
    else [NodeHash(c, level[0], level[1])] + NextLevel(c, level[2..])
  }

  function RootOf(c: Crypto, level: seq<string>): string
    requires level != []
    decreases |level|
  {
    if |level| == 1 then level[0] else RootOf(c, NextLevel(c, level))
  }

  function MerkleRoot(c: Crypto, ids: set<string>): string
  {
    if ids == {} then c.sha(Text(EMPTY_BOARD))
    else RootOf(c, LeafHashes(c, Sorted(ids)))
  }

  function Pow2(n: nat): (r: nat)
    ensures r > 0
  {
    if n == 0 then 1 else 2 * Pow2(n - 1)
  }

  /** Halving a level keeps its size between the two powers that bound the leaf count. */
  lemma HalvingBounds(p: nat, k: nat, n: nat)
    requires k > 1 && p * (k - 1) < n <= p * k
    ensures 2 * p * ((k + 1) / 2 - 1) < n <= 2 * p * ((k + 1) / 2)
    ensures p < n
  {
    var h := (k + 1) / 2;
    assert k <= 2 * h <= k + 1;
    assert 2 * p * (h - 1) == p * (2 * h - 2);
    assert 2 * p * h == p * (2 * h);
    assert p * (2 * h - 2) <= p * (k - 1) && p * k <= p * (2 * h);
    assert p * 1 <= p * (k - 1);
  }

  /** After `rounds` rounds n leaves have become k nodes. */
  predicate RoundBounds(rounds: nat, k: nat, n: nat)
  {
    && Pow2(rounds) * (k - 1) < n <= Pow2(rounds) * k
    && (rounds > 0 ==> Pow2(rounds - 1) < n)
  }

  lemma NextRoundBounds(rounds: nat, k: nat, n: nat)
    requires k > 1 && RoundBounds(rounds, k, n)
    ensures RoundBounds(rounds + 1, (k + 1) / 2, n)
  {
    HalvingBounds(Pow2(rounds), k, n);
  }

  lemma HashTwo(c: Crypto, level: seq<string>, index: nat)
    requires index + 1 < |level|
    ensures NextLevel(c, level[index..]) ==
            [NodeHash(c, level[index], level[index + 1])] + NextLevel(c, level[index + 2..])
  {
    assert level[index..][2..] == level[index + 2..];
  }

  /** Every node of a round: a pair hashed in order, or the odd last node itself. */
  lemma {:induction false} NextLevelAt(c: Crypto, level: seq<string>, k: nat)
    requires k < |NextLevel(c, level)|
    ensures NextLevel(c, level)[k] ==
            if 2 * k + 1 < |level| then NodeHash(c, level[2 * k], level[2 * k + 1]) else level[2 * k]
  {
    if |level| >= 2 && k > 0 {
      NextLevelAt(c, level[2..], k - 1);
    }
  }

  /** The inner loop of `merkle_root`: pairs are hashed, an odd last node is kept. */
  method HashLevel(c: Crypto, level: seq<string>) returns (next: seq<string>)
    ensures next == NextLevel(c, level) && |next| == (|level| + 1) / 2
    ensures forall k | 0 <= k < |next| ::
              next[k] == if 2 * k + 1 < |level| then NodeHash(c, level[2 * k], level[2 * k + 1]) else level[2 * k]
  {
    next := [];
    var index := 0;
    while index < |level|
      invariant index < |level| ==> NextLevel(c, level) == next + NextLevel(c, level[index..])
      invariant index >= |level| ==> NextLevel(c, level) == next
    {
      if index + 1 == |level| {
        next := next + [level[index]];
      } else {
        HashTwo(c, level, index);
        next := next + [NodeHash(c, level[index], level[index + 1])];
      }
      index := index + 2;
    }
    forall k | 0 <= k < |next|
      ensures next[k] == if 2 * k + 1 < |level| then NodeHash(c, level[2 * k], level[2 * k + 1]) else level[2 * k]
    {
      NextLevelAt(c, level, k);
    }
  }

  /** The outer loop of `merkle_root`: rounds until one node is left. */
  method HashRounds(c: Crypto, leaves: seq<string>) returns (root: string, ghost rounds: nat)
    requires leaves != []
    ensures root == RootOf(c, leaves)
    ensures RoundBounds(rounds, 1, |leaves|)
  {
    var level := leaves;
    rounds := 0;
    while |level| > 1
      invariant level != []
      invariant RootOf(c, level) == RootOf(c, leaves)
      invariant RoundBounds(rounds, |level|, |leaves|)
      decreases |level|
    {
      NextRoundBounds(rounds, |level|, |leaves|);
      level := HashLevel(c, level);
      rounds := rounds + 1;
    }
    root := level[0];
  }

  /** `merkle_root` over the sorted distinct ids, in ceil(log2 n) rounds. */
  method ComputeRoot(c: Crypto, recordIds: seq<string>) returns (root: string, ghost rounds: nat)
    ensures root == MerkleRoot(c, Elements(recordIds))
    ensures |Elements(recordIds)| <= Pow2(rounds)
    ensures rounds > 0 ==> Pow2(rounds - 1) < |Elements(recordIds)|
  {
    var ordered := Sorted(Elements(recordIds));
    if ordered == [] {
      return c.sha(Text(EMPTY_BOARD)), 0;
    }
    root, rounds := HashRounds(c, LeafHashes(c, ordered));
  }

  // ------------------------------------------------------- trees over the ids

  /** The shape a root was computed with; `Ids` reads its leaves in order. */
  datatype Tree = Tip(id: string) | Fork(left: Tree, right: Tree)

  function TreeHash(c: Crypto, t: Tree): string
  {
    match t
    case Tip(id) => LeafHash(c, id)
    case Fork(l, r) => NodeHash(c, TreeHash(c, l), TreeHash(c, r))
  }

  function TreePreimage(c: Crypto, t: Tree): (p: Preimage)
    ensures c.sha(p) == TreeHash(c, t)
  {
    match t
    case Tip(id) => BoardLeaf(id)
    case Fork(l, r) => BoardNode(TreeHash(c, l), TreeHash(c, r))
  }

  function Ids(t: Tree): seq<string>
  {
    match t
    case Tip(id) => [id]
    case Fork(l, r) => Ids(l) + Ids(r)
  }

  function Flatten(ts: seq<Tree>): seq<string>
  {
    if ts == [] then [] else Ids(ts[0]) + Flatten(ts[1..])
  }

  function Hashes(c: Crypto, ts: seq<Tree>): seq<string>
  {
    seq(|ts|, i requires 0 <= i < |ts| => TreeHash(c, ts[i]))
  }

  function NextTrees(ts: seq<Tree>): (next: seq<Tree>)
    ensures |next| == (|ts| + 1) / 2
  {
    if |ts| < 2 then ts else [Fork(ts[0], ts[1])] + NextTrees(ts[2..])
  }

  function RootTree(ts: seq<Tree>): Tree
    requires ts != []
    decreases |ts|
  {
    if |ts| == 1 then ts[0] else RootTree(NextTrees(ts))
  }

  function Tips(ids: seq<string>): seq<Tree>
  {
    seq(|ids|, i requires 0 <= i < |ids| => Tip(ids[i]))
  }

  lemma {:induction false} RoundKeepsLeaves(ts: seq<Tree>)
    ensures Flatten(NextTrees(ts)) == Flatten(ts)
  {
    if |ts| >= 2 {
      var rest := NextTrees(ts[2..]);
      RoundKeepsLeaves(ts[2..]);
      assert NextTrees(ts)[1..] == rest;
      assert ts[1..][1..] == ts[2..];
      assert Ids(ts[0]) + (Ids(ts[1]) + Flatten(ts[2..])) == Ids(Fork(ts[0], ts[1])) + Flatten(rest);
    }
  }

  lemma {:induction false} RoundMatchesHashes(c: Crypto, ts: seq<Tree>)
    ensures NextLevel(c, Hashes(c, ts)) == Hashes(c, NextTrees(ts))
  {
    if |ts| >= 2 {
      RoundMatchesHashes(c, ts[2..]);
      assert Hashes(c, ts)[2..] == Hashes(c, ts[2..]);
      assert Hashes(c, NextTrees(ts)) == [TreeHash(c, Fork(ts[0], ts[1]))] + Hashes(c, NextTrees(ts[2..]));
    }
  }

  lemma {:induction false} RootMatchesTree(c: Crypto, ts: seq<Tree>)
    requires ts != []
    ensures RootOf(c, Hashes(c, ts)) == TreeHash(c, RootTree(ts))
    ensures Ids(RootTree(ts)) == Flatten(ts)
    decreases |ts|
  {
    if |ts| == 1 {
      assert ts[1..] == [];
      assert Flatten(ts) == Ids(ts[0]) + [];
    } else {
      RoundMatchesHashes(c, ts);
      RoundKeepsLeaves(ts);
      RootMatchesTree(c, NextTrees(ts));
    }
  }

  lemma {:induction false} TipsFlatten(ids: seq<string>)
    ensures Flatten(Tips(ids)) == ids
  {
    if ids != [] {
      TipsFlatten(ids[1..]);
      assert Tips(ids)[1..] == Tips(ids[1..]);
      assert ids == [ids[0]] + ids[1..];
    }
  }

  lemma {:induction false} TreeHashIsInjective(c: Crypto, t: Tree, u: Tree)
    requires Ideal(c) && TreeHash(c, t) == TreeHash(c, u)
    ensures t == u
  {
    assert Collide(c, TreePreimage(c, t), TreePreimage(c, u));
    if t.Fork? && u.Fork? {
      TreeHashIsInjective(c, t.left, u.left);
      TreeHashIsInjective(c, t.right, u.right);
    }
  }

  /** The root of a non-empty set is the hash of a tree whose leaves, in order, are the sorted ids. */
  lemma RootHasTree(c: Crypto, ids: set<string>) returns (t: Tree)
    requires ids != {}
    ensures MerkleRoot(c, ids) == TreeHash(c, t)
    ensures Ids(t) == Sorted(ids)
  {
    var ordered := Sorted(ids);
    assert ordered != [];
    RootMatchesTree(c, Tips(ordered));
    TipsFlatten(ordered);
    assert Hashes(c, Tips(ordered)) == LeafHashes(c, ordered);
    t := RootTree(Tips(ordered));
  }

  lemma RootIsDigest(c: Crypto, ids: set<string>)
    requires Ideal(c)
    ensures c.isDigest(MerkleRoot(c, ids))
  {
    if ids == {} {
      assert HashIsDigest(c, Text(EMPTY_BOARD));
    } else {
      var t := RootHasTree(c, ids);
      assert HashIsDigest(c, TreePreimage(c, t));
    }
  }

  lemma EmptyRootDiffers(c: Crypto, t: Tree)
    requires Ideal(c)
    ensures c.sha(Text(EMPTY_BOARD)) != TreeHash(c, t)
  {
    assert Collide(c, Text(EMPTY_BOARD), TreePreimage(c, t)) ==> Text(EMPTY_BOARD) == TreePreimage(c, t);
  }

  /** Equal roots mean equal id sets; the empty board shares its root with no other. */
  lemma MerkleRootIsInjective(c: Crypto, s: set<string>, t: set<string>)
    requires Ideal(c) && MerkleRoot(c, s) == MerkleRoot(c, t)
    ensures s == t
  {
    if s == {} && t == {} {
    } else if s == {} {
      var u := RootHasTree(c, t);
      EmptyRootDiffers(c, u);
    } else if t == {} {
      var u := RootHasTree(c, s);
      EmptyRootDiffers(c, u);
    } else {
      var u := RootHasTree(c, s);
      var v := RootHasTree(c, t);
      TreeHashIsInjective(c, u, v);
      assert Elements(Sorted(s)) == Elements(Sorted(t));
    }
  }
}
