/** The insertion-ordered block store (core/dag/blockstore/blockstore.go). */
module Blockstore {
  import opened Graph

  /** Storing one more block: a block already there keeps its place. */
  function Stored(s: seq<Block>, b: Block): seq<Block> {
    if b in s then s else s + [b]
  }

  function StoredAll(s: seq<Block>, blocks: seq<Block>): seq<Block> {
    if blocks == [] then s
    else Stored(StoredAll(s, blocks[..|blocks| - 1]), blocks[|blocks| - 1])
  }

  /** The blocks of a sequence in order of first occurrence. */
  function Distinct(blocks: seq<Block>): seq<Block> {
    StoredAll([], blocks)
  }

  lemma DistinctOne(b: Block)
    ensures Distinct([b]) == [b]
  {
    assert [b][..|[b]| - 1] == [];
    assert StoredAll([], []) == [];
  }

  lemma {:induction false} StoredAllHas(s: seq<Block>, blocks: seq<Block>, b: Block)
    ensures b in StoredAll(s, blocks) <==> b in s || b in blocks
  {
    if blocks != [] {
      var n := |blocks| - 1;
      StoredAllHas(s, blocks[..n], b);
      assert blocks == blocks[..n] + [blocks[n]];
    }
  }

  lemma DistinctHas(blocks: seq<Block>, b: Block)
    ensures b in Distinct(blocks) <==> b in blocks
  {
    StoredAllHas([], blocks, b);
  }

  /** A block comes before another exactly by its first occurrence, and none comes twice. */
  lemma {:induction false} DistinctInOrder(blocks: seq<Block>, i: nat, j: nat)
    requires i < j < |Distinct(blocks)|
    ensures var s := Distinct(blocks);
      exists k :: 0 <= k <= |blocks| && s[i] in blocks[..k] && s[j] !in blocks[..k]
  {
    var n := |blocks| - 1;
    var s := Distinct(blocks);
    if j < |Distinct(blocks[..n])| {
      DistinctInOrder(blocks[..n], i, j);
      var k :| 0 <= k <= n && s[i] in blocks[..n][..k] && s[j] !in blocks[..n][..k];
      assert blocks[..n][..k] == blocks[..k];
    } else {
      DistinctHas(blocks[..n], s[i]);
      DistinctHas(blocks[..n], s[j]);
      assert s[i] in blocks[..n] && s[j] !in blocks[..n];
    }
  }

  lemma StoredAllSnoc(s: seq<Block>, blocks: seq<Block>, i: nat)
    requires i < |blocks|
    ensures StoredAll(s, blocks[..i + 1]) == Stored(StoredAll(s, blocks[..i]), blocks[i])
  {
    assert blocks[..i + 1][..i] == blocks[..i];
  }

  lemma {:induction false} StoredAllConcat(s: seq<Block>, t: seq<Block>, u: seq<Block>)
    ensures StoredAll(s, t + u) == StoredAll(StoredAll(s, t), u)
  {
    if u == [] {
      assert t + u == t;
    } else {
      var n := |u| - 1;
      StoredAllConcat(s, t, u[..n]);
      assert (t + u)[..|t + u| - 1] == t + u[..n];
    }
  }

  function Addressed(keys: seq<Link>): (r: seq<Block>)
    ensures |r| == |keys| && forall i :: 0 <= i < |r| ==> Cid(r[i]) == keys[i]
    ensures forall b :: b in r <==> Cid(b) in keys
  {
    var r := seq(|keys|, i requires 0 <= i < |keys| => keys[i].content);
    assert forall b :: Cid(b) in keys ==> b in r by {
      forall b | Cid(b) in keys
        ensures b in r
      {
        var i :| 0 <= i < |keys| && keys[i] == Cid(b);
        assert r[i] == b;
      }
    }
    r
  }

  class BlockStore {
    var keys: seq<Link>
    var blks: map<Link, Block>

    /** Every key holds the block it addresses, and is listed once. */
    ghost predicate Valid()
      reads this
    {
      && (forall i, j :: 0 <= i < j < |keys| ==> keys[i] != keys[j])
      && (forall k :: k in keys <==> k in blks)
      && (forall k :: k in blks ==> k == Cid(blks[k]))
    }

    /** The blocks in insertion order. */
    ghost function Contents(): seq<Block>
      reads this
    {
      Addressed(keys)
    }

    constructor (blocks: seq<Block>)
      ensures Valid() && Contents() == Distinct(blocks)
    {
      keys, blks := [], map[];
      new;
      for i := 0 to |blocks|
        invariant Valid() && Contents() == Distinct(blocks[..i])
      {
        StoredAllSnoc([], blocks, i);
        Put(blocks[i]);
      }
      assert blocks[..|blocks|] == blocks;
    }

    method Put(block: Block)
      requires Valid()
      modifies this
      ensures Valid() && Contents() == Stored(old(Contents()), block)
    {
      if Cid(block) in blks {
        return;
      }
      blks := blks[Cid(block) := block];
      keys := keys + [Cid(block)];
      assert Contents() == old(Contents()) + [block];
    }

    method Get(link: Link) returns (r: Option<Block>)
      requires Valid()
      ensures r == if link.content in Contents() then Some(link.content) else None
    {
      r := if link in blks then Some(blks[link]) else None;
    }

    method Iterator() returns (r: seq<Block>)
      requires Valid()
      ensures r == Contents()
    {
      r := [];
      for i := 0 to |keys|
        invariant r == Contents()[..i]
      {
        r := r + [blks[keys[i]]];
      }
    }
  }

  /** Adds a view's blocks to a store. */
  method WriteInto(blocks: seq<Block>, bs: BlockStore)
    requires bs.Valid()
    modifies bs
    ensures bs.Valid() && bs.Contents() == StoredAll(old(bs.Contents()), blocks)
  {
    ghost var before := bs.Contents();
    for i := 0 to |blocks|
      invariant bs.Valid() && bs.Contents() == StoredAll(before, blocks[..i])
    {
      StoredAllSnoc(before, blocks, i);
      bs.Put(blocks[i]);
    }
    assert blocks[..|blocks|] == blocks;
  }
}
