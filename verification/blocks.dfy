/** Block-list helpers of the Number Change game (server/nc_game.go):
    membership, removal of a submitted pair, and the larger of two blocks. */
module Blocks {

  /** Whether `block` occurs in `blocks` at least once. Only membership is
      checked: the count of copies plays no part. */
  function HasBlock(blocks: seq<int>, block: int): (r: bool)
    ensures r <==> multiset(blocks)[block] > 0
  {
    if blocks == [] then false
    else if blocks[0] == block then true
    else HasBlock(blocks[1..], block)
  }

  /** The larger of two blocks. */
  function Max(a: int, b: int): (m: int)
    ensures m >= a && m >= b
    ensures m == a || m == b
  {
    if a > b then a else b
  }

  /** Reference definition: `s` without its first occurrence of `x` (`s`
      itself when `x` does not occur). */
  function RemoveFirst(s: seq<int>, x: int): (r: seq<int>)
    ensures multiset(r) == multiset(s) - multiset{x}
    ensures |r| == if x in s then |s| - 1 else |s|
  {
    if s == [] then []
    else if s[0] == x then
      assert s == [s[0]] + s[1..];
      s[1..]
    else
      assert s == [s[0]] + s[1..];
      [s[0]] + RemoveFirst(s[1..], x)
  }

  /** Step the removal rule `done` has not fired yet. */
  function Pending(s: seq<int>, x: int, done: bool): seq<int> {
    if done then s else RemoveFirst(s, x)
  }

  /** The scan of the server's removal loop over `blocks`, carrying its two
      flags: an entry equal to `block1` is dropped while `removed1` is unset,
      else an entry equal to `block2` is dropped while `removed2` is unset,
      and every other entry is kept in order. */
  function RemoveScan(blocks: seq<int>, block1: int, block2: int, removed1: bool, removed2: bool): (r: seq<int>)
    ensures r == Pending(Pending(blocks, block1, removed1), block2, removed2)
  {
    if blocks == [] then []
    else
      var b := blocks[0];
      assert blocks == [b] + blocks[1..];
      if b == block1 && !removed1 then RemoveScan(blocks[1..], block1, block2, true, removed2)
      else if b == block2 && !removed2 then RemoveScan(blocks[1..], block1, block2, removed1, true)
      else [b] + RemoveScan(blocks[1..], block1, block2, removed1, removed2)
  }

  /** Remove a submitted pair from a block list: the first occurrence of
      `block1`, then the first remaining occurrence of `block2`, keeping the
      order of the rest. At most one copy per submitted block goes, and a
      block that is missing removes nothing. */
  function RemoveBlocks(blocks: seq<int>, block1: int, block2: int): (r: seq<int>)
    ensures r == RemoveFirst(RemoveFirst(blocks, block1), block2)
    ensures multiset(r) == multiset(blocks) - multiset{block1, block2}
  {
    var r := RemoveScan(blocks, block1, block2, false, false);
    var once := RemoveFirst(blocks, block1);
    assert multiset(r) == multiset(once) - multiset{block2};
    MinusPair(multiset(blocks), block1, block2);
    r
  }

  /** Taking one copy of `a` and then one of `b` from a bag takes the pair. */
  lemma MinusPair(m: multiset<int>, a: int, b: int)
    ensures (m - multiset{a}) - multiset{b} == m - multiset{a, b}
  {
    forall x ensures ((m - multiset{a}) - multiset{b})[x] == (m - multiset{a, b})[x] {
    }
  }

  /** When the bag holds both submitted blocks (counting copies), removal
      takes exactly two blocks. */
  lemma RemoveBlocksOwnedPair(blocks: seq<int>, block1: int, block2: int)
    requires multiset{block1, block2} <= multiset(blocks)
    ensures |RemoveBlocks(blocks, block1, block2)| == |blocks| - 2
    ensures multiset(RemoveBlocks(blocks, block1, block2)) + multiset{block1, block2} == multiset(blocks)
  {
    var r := RemoveBlocks(blocks, block1, block2);
    assert |multiset(r)| == |r|;
    assert multiset(r) + multiset{block1, block2} == multiset(blocks);
  }
}
