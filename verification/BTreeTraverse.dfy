/** Whole runs of the index: replaying inserts, and walking the leaf chain. */
module BTreeTraverse {
  import opened Flat
  import opened BTreeShape
  import opened BTreeRecords
  import opened BTreeIndex

  /** A new index after any sequence of inserts holds the last write of every key.  Inserts
      go on while block numbers last, which they do for MAX_RECORDS keys at the least. */
  method Replay(ops: seq<(Key, nat)>) returns (t: BTree, n: nat)
    ensures fresh(t) && n <= |ops| && t.Valid() && t.Contents() == MapOf(ops[..n])
    ensures n < |ops| ==> |t.blocks| + 5 > MAX_BLOCKS && |MapOf(ops[..n])| > MAX_RECORDS
  {
    hide Tree, Pairs, Expand, Total;
    t := new BTree();
    n := 0;
    while n < |ops| && |t.blocks| + 5 <= MAX_BLOCKS
      invariant n <= |ops| && fresh(t) && t.Valid() && t.Contents() == MapOf(ops[..n])
    {
      t.FewBlocks();
      t.Insert(ops[n].0, ops[n].1);
      assert ops[..n + 1][..n] == ops[..n];
      n := n + 1;
    }
    if n < |ops| && |t.Contents()| <= MAX_RECORDS {
      RoomForInsert(t.blocks, t.levels);
    }
  }

  /** The traversal of a tree: a leaf and the index of the next record in it. */
  class Cursor {
    var blkno: int
    var index: nat
    ghost var leaf: nat

    /** The next record is number `p` in key order. */
    ghost predicate On(t: BTree, p: nat)
      reads this, t
    {
      && t.Valid()
      && if blkno == ANCHOR then p == |Pairs(t.blocks, t.levels[0])|
         else
           && leaf < |t.levels[0]| && blkno == t.levels[0][leaf].bno < |t.blocks|
           && p == Start(t.blocks, t.levels[0], leaf) + index
           && (index == 0 || index < |t.blocks[blkno].keys|)
    }

    constructor () { blkno, index := ANCHOR, 0; }

    /** Goes to the leftmost leaf. */
    method Reset(t: BTree)
      requires t.Valid()
      modifies this, t`busy, t`bufIdx
      ensures On(t, 0)
    {
      hide Pairs, Expand, Total;
      blkno := 0;
      ghost var l: nat := |t.levels| - 1;
      LevelFirst(t.blocks, t.levels, l);
      while true
        invariant t.Valid() && t.blocks == old(t.blocks) && t.levels == old(t.levels)
        invariant l < |t.levels| && 0 < |t.levels[l]| && 0 <= blkno == t.levels[l][0].bno < |t.blocks|
        invariant t.blocks[blkno].level == l && t.blocks[blkno].fbn == blkno
        decreases l
      {
        var buf := t.Bread(blkno);
        if t.blocks[blkno].level == 0 {
          t.Brelse(buf);
          break;
        }
        LevelFirst(t.blocks, t.levels, l);
        LevelFirst(t.blocks, t.levels, l - 1);
        blkno := t.blocks[blkno].kids[0];
        l := l - 1;
        t.Brelse(buf);
      }
      index := 0;
      leaf := 0;
      NoRecordsBefore(t.blocks, t.levels[0]);
    }

    /** The next record in key order, or nothing when all have been seen. */
    method Next(t: BTree, ghost p: nat) returns (more: bool, datum: nat)
      requires On(t, p)
      modifies this, t`busy, t`bufIdx
      ensures more <==> p < |Pairs(t.blocks, t.levels[0])|
      ensures more ==> datum == Pairs(t.blocks, t.levels[0])[p].1 && On(t, p + 1)
      ensures !more ==> On(t, p)
    {
      hide Pairs, Expand, Total;
      datum := 0;
      while blkno != ANCHOR
        invariant t.Valid() && t.blocks == old(t.blocks) && t.levels == old(t.levels)
        invariant On(t, p)
        decreases if blkno == ANCHOR then 0 else |t.levels[0]| - leaf
      {
        var buf := t.Bread(blkno);
        var n := t.blocks[blkno];
        LeafFacts(t.blocks, t.levels, leaf);
        ghost var here := leaf;
        if |n.keys| == 0 {
          blkno, index, leaf := n.next, 0, leaf + 1;
          t.Brelse(buf);
        } else {
          RecordAt(t.blocks, t.levels[0], leaf, index);
          datum := n.vals[index];
          index := index + 1;
          if index == |n.keys| {
            blkno, index, leaf := n.next, 0, leaf + 1;
          }
          t.Brelse(buf);
          more := true;
          return;
        }
      }
      more := false;
    }
  }

  lemma LevelFirst(bs: seq<Node>, levels: seq<seq<Entry>>, l: nat)
    requires Tree(bs, levels, NO_BLOCK) && l < |levels|
    ensures 0 < |levels[l]| && levels[l][0].bno < |bs|
    ensures bs[levels[l][0].bno].level == l && bs[levels[l][0].bno].fbn == levels[l][0].bno
    ensures l == |levels| - 1 ==> levels[l][0].bno == 0
    ensures l > 0 ==>
      && bs[levels[l][0].bno].kids != [] && 0 < |levels[l - 1]|
      && bs[levels[l][0].bno].kids[0] == levels[l - 1][0].bno
  {
    TreeLevels(bs, levels, NO_BLOCK, l);
    assert NodeOk(bs, levels[l][0].bno, l, l == |levels| - 1, NO_BLOCK);
    if l > 0 {
      ChildPos(bs, levels[l], 0, 0);
      assert levels[l][..0] == [];
    }
  }

  lemma NoRecordsBefore(bs: seq<Node>, lev: seq<Entry>)
    ensures Start(bs, lev, 0) == 0
  {
    assert lev[..0] == [];
  }

  /** A leaf, its records, and where the records of the next leaf start. */
  lemma LeafFacts(bs: seq<Node>, levels: seq<seq<Entry>>, i: nat)
    requires Tree(bs, levels, NO_BLOCK) && i < |levels[0]|
    ensures var b := levels[0][i].bno;
      && b < |bs| && bs[b].fbn == b && |bs[b].vals| == |bs[b].keys|
      && (if i == |levels[0]| - 1 then
            bs[b].next == ANCHOR
            && Start(bs, levels[0], i) + |bs[b].keys| == |Pairs(bs, levels[0])|
          else
            bs[b].next == levels[0][i + 1].bno < |bs|
            && Start(bs, levels[0], i) + |bs[b].keys| == Start(bs, levels[0], i + 1))
      && (bs[b].keys == [] ==> |levels[0]| == 1)
  {
    TreeLevels(bs, levels, NO_BLOCK, 0);
    var lev := levels[0];
    assert NodeOk(bs, lev[i].bno, 0, |levels| == 1, NO_BLOCK) && LinkOk(bs, lev, i);
    assert lev[..i + 1] == lev[..i] + [lev[i]];
    FlatMapAppend(RecordsOf(bs), lev[..i], [lev[i]]);
    FlatMapOne(RecordsOf(bs), lev[i]);
    if i == |lev| - 1 {
      assert lev[..i + 1] == lev;
    } else {
      assert NodeOk(bs, lev[i + 1].bno, 0, |levels| == 1, NO_BLOCK);
    }
  }

  /** Walking the leaf chain from the start yields the value of every key once, in key
      order, and then stops. */
  method Walk(t: BTree, c: Cursor) returns (values: seq<nat>)
    requires t.Valid()
    modifies c, t`busy, t`bufIdx
    ensures t.Valid() && t.blocks == old(t.blocks) && t.levels == old(t.levels)
    ensures var s := Pairs(t.blocks, t.levels[0]);
      && Ascending(s) && MapOf(s) == t.Contents()
      && |values| == |s| && forall i :: 0 <= i < |s| ==> values[i] == s[i].1
  {
    hide Pairs, Expand, Total;
    values := [];
    c.Reset(t);
    ghost var s := Pairs(t.blocks, t.levels[0]);
    TreeLevels(t.blocks, t.levels, NO_BLOCK, 0);
    PairsAscending(t.blocks, t.levels[0]);
    var more := true;
    while more
      invariant t.blocks == old(t.blocks) && t.levels == old(t.levels) && t.Valid()
      invariant |values| <= |s| && c.On(t, |values|)
      invariant forall i :: 0 <= i < |values| ==> values[i] == s[i].1
      invariant !more ==> |values| == |s|
      decreases |s| - |values|, more
    {
      var datum;
      more, datum := c.Next(t, |values|);
      if more { values := values + [datum]; }
    }
  }
}
