/** group.go: text blocks grouped around the first block of each group. */
module Grouping {
  import opened Common

  datatype Box = Box(top: int, bottom: int, left: int, right: int)

  datatype Block = Block(text: string, box: Box)

  function Abs(x: int): int { if x < 0 then -x else x }

  function Min(x: int, y: int): int { if y < x then y else x }

  /** How far apart two neighbours may be. */
  datatype Reach = Reach(x: int, y: int)

  predicate IsNeighbor(a: Box, b: Box, reach: Reach) {
    if Abs(a.left - b.left) > reach.x then false
    else if Min(Abs(a.bottom - b.top), Abs(b.bottom - a.top)) > reach.y then false
    else true
  }

  predicate Within(x: int, y: int, reach: int) { x - y <= reach && y - x <= reach }

  /** Two blocks are neighbours exactly if their left edges are near each other and the bottom edge of one is
      near the top edge of the other. */
  lemma NeighborExactly(a: Box, b: Box, reach: Reach)
    ensures IsNeighbor(a, b, reach) <==>
            Within(a.left, b.left, reach.x) && (Within(a.bottom, b.top, reach.y) || Within(b.bottom, a.top, reach.y))
    ensures IsNeighbor(a, b, reach) == IsNeighbor(b, a, reach)
  {}

  // ---------------------------------------------------------------- what the groups should be

  /** The block a group is named after: the first earlier seed next to this block, or the block itself. */
  function Owner(blocks: seq<Block>, reach: Reach, k: nat): (s: nat)
    requires k < |blocks|
    ensures s <= k
    decreases k, k + 2
  {
    FirstSeed(blocks, reach, k, k)
  }

  /** The first of the first `n` blocks that is a seed and a neighbour of block `k`, or `k`. */
  function FirstSeed(blocks: seq<Block>, reach: Reach, k: nat, n: nat): (s: nat)
    requires n <= k < |blocks|
    ensures s == k || s < n
    decreases k, n + 1
  {
    if n == 0 then k
    else
      var s := FirstSeed(blocks, reach, k, n - 1);
      if s < k then s
      else if IsSeed(blocks, reach, n - 1) && IsNeighbor(blocks[n - 1].box, blocks[k].box, reach) then n - 1
      else k
  }

  predicate IsSeed(blocks: seq<Block>, reach: Reach, k: nat)
    requires k < |blocks|
    decreases k, k + 3
  {
    Owner(blocks, reach, k) == k
  }

  lemma {:induction false} FirstSeedIsFirst(blocks: seq<Block>, reach: Reach, k: nat, n: nat)
    requires n <= k < |blocks|
    ensures var s := FirstSeed(blocks, reach, k, n);
            && (s < k ==> IsSeed(blocks, reach, s) && IsNeighbor(blocks[s].box, blocks[k].box, reach))
            && forall i: nat | i < n && i < s ::
                 !(IsSeed(blocks, reach, i) && IsNeighbor(blocks[i].box, blocks[k].box, reach))
    decreases n
  {
    if n > 0 {
      FirstSeedIsFirst(blocks, reach, k, n - 1);
    }
  }

  /** No two seeds are neighbours, and every other block is grouped with the first seed next to it. */
  lemma OwnerIsFirstSeed(blocks: seq<Block>, reach: Reach, k: nat)
    requires k < |blocks|
    ensures var s := Owner(blocks, reach, k);
            && IsSeed(blocks, reach, s)
            && (s < k ==> IsNeighbor(blocks[s].box, blocks[k].box, reach))
            && forall i: nat | i < s ::
                 !(IsSeed(blocks, reach, i) && IsNeighbor(blocks[i].box, blocks[k].box, reach))
  {
    FirstSeedIsFirst(blocks, reach, k, k);
  }

  lemma SeedsAreApart(blocks: seq<Block>, reach: Reach, i: nat, j: nat)
    requires i < |blocks| && j < |blocks| && i != j && IsSeed(blocks, reach, i) && IsSeed(blocks, reach, j)
    ensures !IsNeighbor(blocks[i].box, blocks[j].box, reach)
  {
    OwnerIsFirstSeed(blocks, reach, i);
    OwnerIsFirstSeed(blocks, reach, j);
  }

  /** The members of a seed among the first `n` blocks, in order. */
  function Members(blocks: seq<Block>, reach: Reach, seed: nat, n: nat): seq<Block>
    requires n <= |blocks|
  {
    if n == 0 then []
    else Members(blocks, reach, seed, n - 1) + if Owner(blocks, reach, n - 1) == seed then [blocks[n - 1]] else []
  }

  /** The members, among the first `m` blocks, of every seed among the first `n`. */
  function Groups(blocks: seq<Block>, reach: Reach, n: nat, m: nat): seq<seq<Block>>
    requires n <= |blocks| && m <= |blocks|
  {
    if n == 0 then []
    else Groups(blocks, reach, n - 1, m)
         + if IsSeed(blocks, reach, n - 1) then [Members(blocks, reach, n - 1, m)] else []
  }

  // ---------------------------------------------------------------- the loop

  lemma {:induction false} NoMembersBefore(blocks: seq<Block>, reach: Reach, seed: nat, n: nat)
    requires n <= |blocks| && n <= seed
    ensures Members(blocks, reach, seed, n) == []
  {
    if n > 0 {
      NoMembersBefore(blocks, reach, seed, n - 1);
    }
  }

  /** A block that no earlier seed took belongs to a seed exactly if it is its neighbour. */
  lemma JoinsNeighbor(blocks: seq<Block>, reach: Reach, i: nat, j: nat)
    requires i < j < |blocks| && IsSeed(blocks, reach, i) && Owner(blocks, reach, j) >= i
    ensures Owner(blocks, reach, j) == i <==> IsNeighbor(blocks[i].box, blocks[j].box, reach)
  {
    OwnerIsFirstSeed(blocks, reach, j);
  }

  /** The blocks marked after the seeds before `i` and, for seed `i`, the blocks before `j`. */
  predicate Taken(blocks: seq<Block>, reach: Reach, k: nat, i: nat, j: nat)
    requires k < |blocks|
  {
    Owner(blocks, reach, k) < i || (Owner(blocks, reach, k) == i && k < j)
  }

  lemma TakenNext(blocks: seq<Block>, reach: Reach, k: nat, i: nat)
    requires k < |blocks| && i < |blocks|
    ensures !IsSeed(blocks, reach, i) ==> Taken(blocks, reach, k, i + 1, 0) == Taken(blocks, reach, k, i, 0)
    ensures Taken(blocks, reach, k, i + 1, 0) == Taken(blocks, reach, k, i, |blocks|)
  {
    OwnerIsFirstSeed(blocks, reach, k);
  }

  method GroupTextBlocks(blocks: seq<Block>, reach: Reach) returns (groups: seq<seq<Block>>)
    ensures groups == Groups(blocks, reach, |blocks|, |blocks|)
  {
    groups := [];
    var used := new bool[|blocks|](_ => false);
    for i := 0 to |blocks|
      invariant groups == Groups(blocks, reach, i, |blocks|)
      invariant forall k: nat | k < |blocks| :: used[k] == Taken(blocks, reach, k, i, 0)
    {
      forall k: nat | k < |blocks| {
        TakenNext(blocks, reach, k, i);
      }
      if used[i] {
        continue;
      }
      var group := CollectNeighbors(blocks, reach, used, i);
      groups := groups + [group];
    }
  }

  /** The group of a seed; marks its members. */
  method CollectNeighbors(blocks: seq<Block>, reach: Reach, used: array<bool>, i: nat) returns (group: seq<Block>)
    requires i < |blocks| == used.Length && !used[i]
    requires forall k: nat | k < |blocks| :: used[k] == Taken(blocks, reach, k, i, 0)
    modifies used
    ensures group == Members(blocks, reach, i, |blocks|)
    ensures forall k: nat | k < |blocks| :: used[k] == Taken(blocks, reach, k, i, |blocks|)
  {
    group := [blocks[i]];
    used[i] := true;
    NoMembersBefore(blocks, reach, i, i);
    for j := i + 1 to |blocks|
      invariant group == Members(blocks, reach, i, j)
      invariant forall k: nat | k < |blocks| :: used[k] == Taken(blocks, reach, k, i, j)
    {
      if used[j] {
        continue;
      }
      JoinsNeighbor(blocks, reach, i, j);
      if IsNeighbor(blocks[i].box, blocks[j].box, reach) {
        group := group + [blocks[j]];
        used[j] := true;
      }
    }
  }

  // ---------------------------------------------------------------- the groups are a partition

  function Times(xs: seq<Block>, b: Block): nat { multiset(xs)[b] }

  /** How often a block is a member of a seed among the first `n` blocks. */
  function Copies(blocks: seq<Block>, reach: Reach, n: nat, m: nat, b: Block): nat
    requires n <= |blocks| && m <= |blocks|
  {
    if n == 0 then 0
    else Copies(blocks, reach, n - 1, m, b)
         + if IsSeed(blocks, reach, n - 1) then Times(Members(blocks, reach, n - 1, m), b) else 0
  }

  lemma TimesStep(xss: seq<seq<Block>>, seed: bool, xs: seq<Block>, b: Block)
    ensures Times(Flatten(xss + if seed then [xs] else []), b)
         == Times(Flatten(xss), b) + if seed then Times(xs, b) else 0
  {
    if seed {
      FlattenPush(xss, xs);
    } else {
      assert xss + [] == xss;
    }
  }

  lemma {:induction false} FlattenCopies(blocks: seq<Block>, reach: Reach, n: nat, m: nat, b: Block)
    requires n <= |blocks| && m <= |blocks|
    ensures Times(Flatten(Groups(blocks, reach, n, m)), b) == Copies(blocks, reach, n, m, b)
  {
    if n > 0 {
      FlattenCopies(blocks, reach, n - 1, m, b);
      TimesStep(Groups(blocks, reach, n - 1, m), IsSeed(blocks, reach, n - 1), Members(blocks, reach, n - 1, m), b);
    }
  }

  lemma OwnerIsSeed(blocks: seq<Block>, reach: Reach, k: nat)
    requires k < |blocks|
    ensures IsSeed(blocks, reach, Owner(blocks, reach, k))
  {
    OwnerIsFirstSeed(blocks, reach, k);
  }

  lemma MembersGrow(blocks: seq<Block>, reach: Reach, seed: nat, m: nat, b: Block)
    requires m < |blocks|
    ensures Times(Members(blocks, reach, seed, m + 1), b)
         == Times(Members(blocks, reach, seed, m), b)
            + if Owner(blocks, reach, m) == seed && blocks[m] == b then 1 else 0
  {}

  /** Counting one more block adds it to the group of its owner, if that seed is counted. */
  lemma {:induction false} CopiesGrow(blocks: seq<Block>, reach: Reach, n: nat, m: nat, b: Block)
    requires n <= |blocks| && m < |blocks|
    ensures Copies(blocks, reach, n, m + 1, b)
         == Copies(blocks, reach, n, m, b) + if Owner(blocks, reach, m) < n && blocks[m] == b then 1 else 0
  {
    if n > 0 {
      CopiesGrow(blocks, reach, n - 1, m, b);
      MembersGrow(blocks, reach, n - 1, m, b);
      OwnerIsSeed(blocks, reach, m);
    }
  }

  lemma {:induction false} NoCopies(blocks: seq<Block>, reach: Reach, n: nat, b: Block)
    requires n <= |blocks|
    ensures Copies(blocks, reach, n, 0, b) == 0
  {
    if n > 0 {
      NoCopies(blocks, reach, n - 1, b);
    }
  }

  lemma {:induction false} CopiesSoFar(blocks: seq<Block>, reach: Reach, m: nat, b: Block)
    requires m <= |blocks|
    ensures Copies(blocks, reach, |blocks|, m, b) == Times(blocks[..m], b)
  {
    if m == 0 {
      NoCopies(blocks, reach, |blocks|, b);
    } else {
      CopiesSoFar(blocks, reach, m - 1, b);
      CopiesGrow(blocks, reach, |blocks|, m - 1, b);
      assert blocks[..m] == blocks[..m - 1] + [blocks[m - 1]];
    }
  }

  /** No block is lost and none is grouped twice. */
  lemma Partition(blocks: seq<Block>, reach: Reach)
    ensures multiset(Flatten(Groups(blocks, reach, |blocks|, |blocks|))) == multiset(blocks)
  {
    var all := Flatten(Groups(blocks, reach, |blocks|, |blocks|));
    assert blocks[..|blocks|] == blocks;
    forall b: Block ensures multiset(all)[b] == multiset(blocks)[b] {
      FlattenCopies(blocks, reach, |blocks|, |blocks|, b);
      CopiesSoFar(blocks, reach, |blocks|, b);
      assert Times(all, b) == Times(blocks, b);
    }
  }

  // ---------------------------------------------------------------- the box around a group

  predicate Encloses(a: Box, b: Box) { a.top <= b.top && b.bottom <= a.bottom && a.left <= b.left && b.right <= a.right }

  predicate EnclosesAll(a: Box, blocks: seq<Block>) { forall i | 0 <= i < |blocks| :: Encloses(a, blocks[i].box) }

  /** The smallest box around all blocks, or the zero box around none. */
  method BoundingBox(blocks: seq<Block>) returns (box: Box)
    ensures blocks == [] ==> box == Box(0, 0, 0, 0)
    ensures EnclosesAll(box, blocks)
    ensures blocks != [] ==> forall other :: EnclosesAll(other, blocks) ==> Encloses(other, box)
  {
    var minTop, maxBottom, minLeft, maxRight := 0, 0, 0, 0;
    for i := 0 to |blocks|
      invariant i == 0 ==> minTop == maxBottom == minLeft == maxRight == 0
      invariant EnclosesAll(Box(minTop, maxBottom, minLeft, maxRight), blocks[..i])
      invariant i > 0 ==> forall other ::
        EnclosesAll(other, blocks) ==> Encloses(other, Box(minTop, maxBottom, minLeft, maxRight))
    {
      var b := blocks[i].box;
      if i == 0 {
        minTop, maxBottom, minLeft, maxRight := b.top, b.bottom, b.left, b.right;
      } else {
        if b.top < minTop {
          minTop := b.top;
        }
        if b.bottom > maxBottom {
          maxBottom := b.bottom;
        }
        if b.left < minLeft {
          minLeft := b.left;
        }
        if b.right > maxRight {
          maxRight := b.right;
        }
      }
    }
    assert blocks[..|blocks|] == blocks;
    box := Box(minTop, maxBottom, minLeft, maxRight);
  }
}
