/** The index file: insert-or-update and lookup over numbered blocks, read through a
    round-robin pool of 64 buffers. */
module BTreeIndex {
  import opened Flat
  import opened BTreeShape
  import opened BTreePath
  import opened BTreeRecords
  import opened BTreeRebalance
  import opened BTreeSplit
  import opened BTreeBounds

  const BLOCK_SIZE: nat := 4096
  const GROW_SIZE: nat := 64 * 4096
  const MAX_BUFFERS: nat := 64
  const MAX_BLOCKS: nat := 0x8_0000   // a larger block number times 4096 leaves int32_t

  type Key = k: nat | k < INF

  /** As many records as fit before a block number could leave the addressable range. */
  const MAX_RECORDS: nat := 63 * (MAX_BLOCKS - 5)

  datatype Intent = Find | Upsert(datum: nat)
  datatype Outcome = Found | NotFound | Inserted | Done

  function Slot(t: nat): nat { t % MAX_BUFFERS }

  /** None of the next `n` buffers is in use. */
  ghost predicate FreeAhead(busy: seq<bool>, t: nat, n: nat) {
    && |busy| == MAX_BUFFERS && n <= MAX_BUFFERS
    && forall k :: t <= k < t + n ==> !busy[Slot(k)]
  }

  lemma TakeOne(busy: seq<bool>, t: nat, n: nat)
    requires FreeAhead(busy, t, n) && n > 0
    ensures |busy| == MAX_BUFFERS && !busy[Slot(t)]
    ensures FreeAhead(busy[Slot(t) := true], t + 1, n - 1)
    ensures busy[Slot(t) := true][Slot(t) := false] == busy
  {
    assert !busy[Slot(t)];
  }

  lemma FreeLater(busy: seq<bool>, t: nat, n: nat, t': nat, n': nat)
    requires FreeAhead(busy, t, n) && t <= t' && t' + n' <= t + n
    ensures FreeAhead(busy, t', n')
  {
  }

  /** Enough room for one more key (and child) at position `j`. */
  ghost predicate CanPut(n: Node, j: nat) {
    j <= |n.keys| && Body(n, n.level)
  }

  function Put(n: Node, j: nat, key: nat, payload: nat): Node
    requires CanPut(n, j)
  {
    if n.level == 0 then WithRecord(n, j, key, payload) else WithChild(n, j, key, payload)
  }

  /** The first record of an empty leaf. */
  lemma PutFirst(n: Node, j: nat, key: nat, payload: nat)
    requires CanPut(n, j) && n.keys == [] && n.level == 0
    ensures Put(n, j, key, payload) == n.(keys := [key], vals := [payload])
  {
  }

  /** At least 11% of the block is free. */
  predicate ShiftPred(n: Node)
    requires |n.keys| < Cap(n.level)
  {
    Cap(n.level) / (Cap(n.level) - |n.keys|) <= 9
  }

  /** A full block and a neighbour with 11% free: half the difference is at least one
      key, and dividing it leaves both within bounds. */
  ghost predicate Uneven(l: nat, full: Node, other: Node) {
    && Body(full, l) && Body(other, l) && full.level == l && other.level == l
    && |full.keys| == Cap(l) && MinKeys(l) <= |other.keys| < Cap(l)
    && ShiftPred(other)
  }

  lemma AtMostNine(c: nat, x: nat)
    requires x > 0 && c / x <= 9
    ensures c < 10 * x
  {
    var q, r := c / x, c % x;
    assert c == q * x + r && r < x;
    Times(q, 9, x);
  }

  lemma Times(a: nat, b: nat, x: nat)
    requires a <= b
    ensures a * x <= b * x
  {
  }

  lemma SpacePositive(l: nat, full: Node, other: Node)
    requires Uneven(l, full, other)
    ensures |full.keys| - |other.keys| >= 2
  {
    AtMostNine(Cap(l), Cap(l) - |other.keys|);
  }

  lemma MovedLeft(l: nat, a: Node, b: Node, s: nat, space: nat, a': Node, b': Node, s': nat)
    requires Uneven(l, b, a) && space == (|b.keys| - |a.keys|) / 2
    requires l == 0 ==>
      && a' == a.(keys := a.keys + b.keys[..space], vals := a.vals + b.vals[..space])
      && b' == b.(keys := b.keys[space..], vals := b.vals[space..]) && s' == b.keys[space]
    requires l > 0 && space > 0 ==>
      && a' == a.(keys := a.keys + [s] + b.keys[..space - 1], kids := a.kids + b.kids[..space])
      && b' == b.(keys := b.keys[space..], kids := b.kids[space..]) && s' == b.keys[space - 1]
    ensures space > 0 && Redivides(l, a, b, s, a', b', s')
  {
    SpacePositive(l, b, a);
    if l == 0 {
      Uncut(a.keys, b.keys, space);
      Uncut(a.vals, b.vals, space);
    } else {
      UncutAround(a.keys + [s], b.keys, space - 1);
      Uncut(a.kids, b.kids, space);
    }
  }

  lemma MovedRight(l: nat, a: Node, b: Node, s: nat, space: nat, a': Node, b': Node, s': nat)
    requires Uneven(l, a, b) && space == (|a.keys| - |b.keys|) / 2
    requires l == 0 ==> var c := |a.keys| - space;
      && a' == a.(keys := a.keys[..c], vals := a.vals[..c])
      && b' == b.(keys := a.keys[c..] + b.keys, vals := a.vals[c..] + b.vals) && (space > 0 ==> s' == a.keys[c])
    requires l > 0 && space > 0 ==> var c := |a.keys| - space;
      && a' == a.(keys := a.keys[..c], kids := a.kids[..c + 1])
      && b' == b.(keys := a.keys[c + 1..] + [s] + b.keys, kids := a.kids[c + 1..] + b.kids) && s' == a.keys[c]
    ensures space > 0 && Redivides(l, a, b, s, a', b', s')
  {
    SpacePositive(l, a, b);
    var c := |a.keys| - space;
    if l == 0 {
      Recut(a.keys, b.keys, c);
      Recut(a.vals, b.vals, c);
    } else {
      RecutAround(a.keys, s, b.keys, c);
      Recut(a.kids, b.kids, c + 1);
    }
  }

  lemma Uncut(x: seq<nat>, y: seq<nat>, c: nat)
    requires c <= |y|
    ensures (x + y[..c]) + y[c..] == x + y
  {
  }

  lemma UncutAround(x: seq<nat>, y: seq<nat>, c: nat)
    requires c < |y|
    ensures (x + y[..c]) + [y[c]] + y[c + 1..] == x + y
  {
    assert y == y[..c] + [y[c]] + y[c + 1..];
  }

  lemma Recut(x: seq<nat>, y: seq<nat>, c: nat)
    requires c <= |x|
    ensures x[..c] + (x[c..] + y) == x + y
  {
  }

  lemma RecutAround(x: seq<nat>, s: nat, y: seq<nat>, c: nat)
    requires c < |x|
    ensures x[..c] + [x[c]] + (x[c + 1..] + [s] + y) == x + [s] + y
  {
    assert x == x[..c] + [x[c]] + x[c + 1..];
  }

  /** The neighbours of a block in its level. */
  lemma Neighbours(bs: seq<Node>, levels: seq<seq<Entry>>, l: nat, i: nat, b: nat)
    requires l < |levels| && i < |levels[l]| && b == levels[l][i].bno && Tree(bs, levels, b)
    ensures b < |bs| && bs[b].level == l && Body(bs[b], l) && |bs[b].keys| <= Cap(l)
    ensures bs[b].prev == ANCHOR <==> i == 0
    ensures bs[b].next == ANCHOR <==> i == |levels[l]| - 1
    ensures i > 0 ==>
      && bs[b].prev == levels[l][i - 1].bno < |bs| && bs[b].prev != b && l + 1 < |levels|
      && bs[bs[b].prev].level == l && Body(bs[bs[b].prev], l)
      && MinKeys(l) <= |bs[bs[b].prev].keys| < Cap(l)
    ensures i + 1 < |levels[l]| ==>
      && bs[b].next == levels[l][i + 1].bno < |bs| && bs[b].next != b && l + 1 < |levels|
      && bs[bs[b].next].level == l && Body(bs[bs[b].next], l)
      && MinKeys(l) <= |bs[bs[b].next].keys| < Cap(l)
  {
    TreeLevels(bs, levels, b, l);
    var lev, top := levels[l], l == |levels| - 1;
    assert NodeOk(bs, lev[i].bno, l, top, b) && LinkOk(bs, lev, i);
    if i > 0 { assert NodeOk(bs, lev[i - 1].bno, l, top, b); }
    if i + 1 < |lev| { assert NodeOk(bs, lev[i + 1].bno, l, top, b); }
  }

  function Breads(n: nat): nat { 7 * n + 2 }

  /** Where an insertion stands: block `path[l].bno` takes the key at `path[l].index`, and
      with it the blocks are a tree in which that block may be full. */
  ghost predicate Ready(bs: seq<Node>, levels: seq<seq<Entry>>, path: seq<PathNode>, pos: seq<nat>, l: nat,
                        key: nat, payload: nat)
  {
    && l < |levels| == |pos| && |levels| < |path| && pos[l] < |levels[l]|
    && path[l].bno == levels[l][pos[l]].bno < |bs|
    && bs[path[l].bno].level == l && CanPut(bs[path[l].bno], path[l].index)
    && (l > 0 ==> bs[path[l].bno].keys != [])
    && var bs' := bs[path[l].bno := Put(bs[path[l].bno], path[l].index, key, payload)];
      Tree(bs', levels, path[l].bno) && PathFrom(bs', levels, path, pos, l)
  }

  /** What being ready says, one fact at a time. */
  lemma ReadyFacts(bs: seq<Node>, levels: seq<seq<Entry>>, path: seq<PathNode>, pos: seq<nat>, l: nat,
                   key: nat, payload: nat)
    requires Ready(bs, levels, path, pos, l, key, payload)
    ensures l < |levels| == |pos| && |levels| < |path| && pos[l] < |levels[l]|
    ensures path[l].bno == levels[l][pos[l]].bno < |bs|
    ensures bs[path[l].bno].level == l && CanPut(bs[path[l].bno], path[l].index)
    ensures var b := path[l].bno; var put := bs[b := Put(bs[b], path[l].index, key, payload)];
      && Tree(put, levels, b) && PathFrom(put, levels, path, pos, l)
      && put[b].level == l && |put[b].keys| == |bs[b].keys| + 1 <= Cap(l)
      && (bs[b].keys == [] ==> l == 0 && b == 0)
  {
    var b := path[l].bno;
    var put := bs[b := Put(bs[b], path[l].index, key, payload)];
    Neighbours(put, levels, l, pos[l], b);
    if bs[b].keys == [] {
      OnlyRootIsEmpty(put, levels, pos[l], b);
    }
  }

  /** After a split below the root, the parent is ready to take the new block. */
  lemma SplitMakesReady(bs: seq<Node>, levels: seq<seq<Entry>>, path: seq<PathNode>, pos: seq<nat>, l: nat,
                        bs1: seq<Node>)
    returns (levels': seq<seq<Entry>>)
    requires l + 1 < |levels| && PathFrom(bs, levels, path, pos, l)
    requires Tree(bs, levels, levels[l][pos[l]].bno) && SplitBlocks(bs, levels[l][pos[l]].bno, bs1)
    ensures |levels'| == |levels| && Total(levels') == Total(levels) + 1
    ensures Ready(bs1, levels', path, pos, l + 1, SplitKey(bs[levels[l][pos[l]].bno]), |bs|)
    ensures var p := path[l + 1].bno;
      Pairs(bs1[p := Put(bs1[p], path[l + 1].index, SplitKey(bs[levels[l][pos[l]].bno]), |bs|)], levels'[0])
      == Pairs(bs, levels[0])
  {
    hide Total, Tree, Pairs, Expand;
    var b := levels[l][pos[l]].bno;
    var key := SplitKey(bs[b]);
    PathChild(bs, levels, path, pos, l, b);
    var p, j := path[l + 1].bno, path[l + 1].index;
    levels' := SplitKeepsTree(bs, levels, l, pos[l], pos[l + 1], j, bs1);
    TotalUpdate(levels, l, levels'[l]);
    var bs2 := bs1[p := WithChild(bs1[p], j, key, |bs|)];
    SplitTouches(bs, levels, l, pos[l], bs1);
    PathAbove(bs, bs2, levels, levels', path, pos, l, b);
  }

  lemma NotFull(bs: seq<Node>, levels: seq<seq<Entry>>, b: nat)
    requires Tree(bs, levels, b) && b < |bs| && |bs[b].keys| < Cap(bs[b].level)
    ensures Tree(bs, levels, NO_BLOCK)
  {
    forall l | 0 <= l < |levels| ensures LevelOk(bs, levels, l, NO_BLOCK) {
      assert LevelOk(bs, levels, l, b);
      forall i | 0 <= i < |levels[l]| ensures NodeOk(bs, levels[l][i].bno, l, l == |levels| - 1, NO_BLOCK) {
        assert NodeOk(bs, levels[l][i].bno, l, l == |levels| - 1, b);
      }
    }
  }

  /** A block with a single record can only be the root of a one-block tree. */
  lemma OnlyRootIsEmpty(bs: seq<Node>, levels: seq<seq<Entry>>, i: nat, b: nat)
    requires Tree(bs, levels, b) && i < |levels[0]| && b == levels[0][i].bno < |bs| && |bs[b].keys| == 1
    ensures |levels| == 1 && b == 0
  {
    assert LevelOk(bs, levels, 0, b);
    assert NodeOk(bs, levels[0][i].bno, 0, |levels| == 1, b);
  }

  lemma NotTheRoot(bs: seq<Node>, levels: seq<seq<Entry>>, l: nat, i: nat)
    requires Tree(bs, levels, NO_BLOCK) && l < |levels| - 1 && i < |levels[l]|
    ensures levels[l][i].bno != 0
  {
    assert LevelOk(bs, levels, l, NO_BLOCK) && LevelOk(bs, levels, |levels| - 1, NO_BLOCK);
    assert NodeOk(bs, levels[l][i].bno, l, false, NO_BLOCK);
    assert NodeOk(bs, levels[|levels| - 1][0].bno, |levels| - 1, true, NO_BLOCK);
  }

  /** The descent starts at block 0, on a tree of at most four levels. */
  lemma StartAtRoot(bs: seq<Node>, levels: seq<seq<Entry>>)
    requires Tree(bs, levels, NO_BLOCK) && |bs| <= MAX_BLOCKS
    ensures 1 <= |levels| <= 4 && levels[|levels| - 1] == [Entry(0, INF)]
  {
    Pow168();
    BlocksBoundHeight(bs, levels);
  }

  lemma RoomForInsert(bs: seq<Node>, levels: seq<seq<Entry>>)
    requires Tree(bs, levels, NO_BLOCK) && |bs| == Total(levels)
    requires |MapOf(Pairs(bs, levels[0]))| <= MAX_RECORDS
    ensures |bs| + 5 <= MAX_BLOCKS
  {
    TreeLevels(bs, levels, NO_BLOCK, 0);
    PairsAscending(bs, levels[0]);
    MapOfSize(Pairs(bs, levels[0]));
    BlocksPerRecord(bs, levels);
  }

  /** A key missing from its leaf can be inserted where the search stopped. */
  lemma InsertReady(bs: seq<Node>, levels: seq<seq<Entry>>, path: seq<PathNode>, pos: seq<nat>, key: nat, datum: nat)
    requires Tree(bs, levels, NO_BLOCK) && PathFrom(bs, levels, path, pos, 0)
    requires path[0].bno == levels[0][pos[0]].bno < |bs| && Gap(bs[path[0].bno].keys, path[0].index, key)
    requires Lb(levels[0], pos[0]) <= key < levels[0][pos[0]].ub
    ensures Ready(bs, levels, path, pos, 0, key, datum)
    ensures var b := path[0].bno;
      MapOf(Pairs(bs[b := Put(bs[b], path[0].index, key, datum)], levels[0]))
      == MapOf(Pairs(bs, levels[0]))[key := datum]
  {
    hide Expand, Pairs, MapOf, LevelOk;
    PathChild(bs, levels, path, pos, 0, NO_BLOCK);
    var b := path[0].bno;
    var bs' := bs[b := WithRecord(bs[b], path[0].index, key, datum)];
    InsertKeepsTree(bs, levels, pos[0], path[0].index, key, datum);
    forall m | 0 < m < |levels| ensures StepAt(bs', levels, path, pos, m) {
      assert StepAt(bs, levels, path, pos, m);
      StepFrame(bs, bs', levels, levels, path, pos, m, NO_BLOCK);
    }
  }

  lemma IsSplit(bs: seq<Node>, b: nat, bs': seq<Node>)
    requires b < |bs| && |bs'| == |bs| + 1 && Full(bs[b])
    requires bs'[b] == Lesser(bs[b], |bs|) && bs'[|bs|] == Greater(bs[b], b, |bs|)
    requires forall c :: 0 <= c < |bs| && c != b ==>
      bs'[c] == (if c == bs[b].next then bs[c].(prev := |bs|) else bs[c])
    ensures SplitBlocks(bs, b, bs')
  {
  }

  lemma SplitTouches(bs: seq<Node>, levels: seq<seq<Entry>>, l: nat, i: nat, bs1: seq<Node>)
    requires l < |levels| && i < |levels[l]| && Tree(bs, levels, levels[l][i].bno)
    requires SplitBlocks(bs, levels[l][i].bno, bs1)
    ensures forall c :: 0 <= c < |bs| && bs[c].level > l ==> bs1[c] == bs[c]
  {
    Neighbours(bs, levels, l, i, levels[l][i].bno);
  }

  class BTree {
    var blocks: seq<Node>
    var used: nat
    var size: nat
    var busy: seq<bool>
    var bufIdx: nat
    ghost var levels: seq<seq<Entry>>

    ghost predicate File()
      reads this
    {
      |blocks| <= MAX_BLOCKS && used == BLOCK_SIZE * |blocks| < size && GROW_SIZE <= size
    }

    ghost predicate Valid()
      reads this
    {
      && File()
      && Tree(blocks, levels, NO_BLOCK)
      && |blocks| == Total(levels)
      && Idle()
    }

    /** No buffer is in use. */
    ghost predicate Idle()
      reads this
    {
      |busy| == MAX_BUFFERS && forall i :: 0 <= i < MAX_BUFFERS ==> !busy[i]
    }

    /** One more block on every level, and a new root, can still be numbered. */
    ghost predicate HasRoom()
      reads this
    {
      |blocks| + |levels| + 1 <= MAX_BLOCKS
    }

    /** There is room while there are few records, whatever the tree looks like. */
    lemma FewRecords()
      requires Valid() && |Contents()| <= MAX_RECORDS
      ensures HasRoom()
    {
      hide Total, Tree, Expand, Pairs, MapOf;
      StartAtRoot(blocks, levels);
      RoomForInsert(blocks, levels);
    }

    /** There is room while there are few blocks. */
    lemma FewBlocks()
      requires Valid() && |blocks| + 5 <= MAX_BLOCKS
      ensures HasRoom()
    {
      hide Total, Tree, Expand, Pairs, MapOf;
      StartAtRoot(blocks, levels);
    }

    /** What the index stands for. */
    ghost function Contents(): map<nat, nat>
      reads this
      requires Tree(blocks, levels, NO_BLOCK)
    {
      MapOf(Pairs(blocks, levels[0]))
    }

    constructor ()
      ensures Valid() && Contents() == map[]
    {
      blocks, used, size := [], 0, GROW_SIZE;
      busy, bufIdx := seq(MAX_BUFFERS, _ => false), 0;
      levels := [[Entry(0, INF)]];
      new;
      var root := AllocBlock();
      var buf := Bread(root);
      blocks := blocks[root := ZERO_NODE.(magic := MAGIC, prev := ANCHOR, next := ANCHOR)];
      Brelse(buf);
      FlatMapOne(RecordsOf(blocks), Entry(0, INF));
      assert LevelOk(blocks, levels, 0, NO_BLOCK);
    }

    method AllocBlock() returns (bno: nat)
      requires File() && |blocks| < MAX_BLOCKS
      modifies this`blocks, this`used, this`size
      ensures File() && bno == old(|blocks|) && blocks == old(blocks) + [ZERO_NODE]
    {
      bno := used / BLOCK_SIZE;
      used := used + BLOCK_SIZE;
      blocks := blocks + [ZERO_NODE];
      if used < size { return; }
      size := size * 2;
    }

    method Bread(bno: nat) returns (buf: nat)
      requires File() && bno < |blocks|
      requires |busy| == MAX_BUFFERS && !busy[Slot(bufIdx)]
      modifies this`busy, this`bufIdx
      ensures buf == Slot(old(bufIdx)) && busy == old(busy)[buf := true] && bufIdx == old(bufIdx) + 1
    {
      buf := bufIdx % MAX_BUFFERS;
      bufIdx := bufIdx + 1;
      assert bno * BLOCK_SIZE < size;
      busy := busy[buf := true];
    }

    method Brelse(buf: nat)
      requires buf < |busy|
      modifies this`busy
      ensures busy == old(busy)[buf := false]
    {
      busy := busy[buf := false];
    }

    /** The binary search inside one block. */
    method IntraLookup(b: nat, key: nat) returns (cursor: nat)
      requires b < |blocks| && Increasing(blocks[b].keys)
      ensures blocks[b].level > 0 ==> Follows(blocks[b].keys, cursor, key)
      ensures blocks[b].level == 0 ==>
        if key in blocks[b].keys then cursor < |blocks[b].keys| && blocks[b].keys[cursor] == key
        else Gap(blocks[b].keys, cursor, key)
    {
      var table := blocks[b].keys;
      var left, right: int := 0, |table| - 1;
      while left <= right
        invariant 0 <= left <= right + 1 <= |table|
        invariant forall i :: 0 <= i < left ==> table[i] < key
        invariant forall i :: right < i < |table| ==> key < table[i]
      {
        cursor := (right + left) / 2;
        if key == table[cursor] {
          if blocks[b].level > 0 { cursor := cursor + 1; }
          return;
        }
        if key < table[cursor] {
          right := cursor - 1;
        } else {
          left := cursor + 1;
        }
      }
      var at: int := if right >= 0 && table[right] > key then right else left;
      cursor := at;
    }

    /** Moves the greater half of a full block to a new block and relinks its level. */
    method SplitNode(b: nat) returns (spare: nat, key: nat)
      requires File() && |blocks| < MAX_BLOCKS && FreeAhead(busy, bufIdx, 2)
      requires b < |blocks| && Full(blocks[b])
      requires blocks[b].next == ANCHOR || (0 <= blocks[b].next < |blocks| && blocks[b].next != b)
      modifies this`blocks, this`used, this`size, this`busy, this`bufIdx
      ensures File() && spare == old(|blocks|) && |blocks| == spare + 1
      ensures SplitBlocks(old(blocks), b, blocks) && key == SplitKey(old(blocks)[b])
      ensures busy == old(busy) && old(bufIdx) <= bufIdx <= old(bufIdx) + 2
    {
      hide FreeAhead, SplitBlocks;
      TakeOne(busy, bufIdx, 2);
      ghost var bs, was := blocks, blocks[b];
      spare := AllocBlock();
      var original := blocks[b];
      var buf := Bread(spare);
      if original.next != ANCHOR {
        TakeOne(busy, bufIdx, 1);
        var right := Bread(original.next);
        blocks := blocks[original.next := blocks[original.next].(prev := spare)];
        Brelse(right);
      }
      var lesser := |original.keys| / 2;
      var sibling := original.(prev := b, fbn := spare, keys := original.keys[lesser..]);
      original := original.(next := spare);
      if original.level > 0 {
        sibling := sibling.(kids := original.kids[lesser..]);
        lesser := lesser - 1;
        key := original.keys[lesser];
        original := original.(kids := original.kids[..lesser + 1]);
      } else {
        sibling := sibling.(vals := original.vals[lesser..]);
        key := sibling.keys[0];
        original := original.(vals := original.vals[..lesser]);
      }
      original := original.(keys := original.keys[..lesser]);
      assert original == Lesser(was, spare) && sibling == Greater(was, b, spare);
      blocks := blocks[b := original][spare := sibling];
      IsSplit(bs, b, blocks);
      Brelse(buf);
    }

    /** Copies the root to a new block and makes block 0 the parent of the two halves. */
    method IncreaseHeight(greater: nat, key: nat)
      requires File() && |blocks| < MAX_BLOCKS && FreeAhead(busy, bufIdx, 2)
      requires 0 < greater < |blocks|
      modifies this`blocks, this`used, this`size, this`busy, this`bufIdx
      ensures File() && RaisedBlocks(old(blocks), greater, key, blocks)
      ensures busy == old(busy) && bufIdx == old(bufIdx) + 2
    {
      TakeOne(busy, bufIdx, 2);
      var spare := AllocBlock();
      var lesserBuf := Bread(spare);
      TakeOne(busy, bufIdx, 1);
      var greaterBuf := Bread(greater);
      blocks := blocks[spare := blocks[0].(fbn := spare)][greater := blocks[greater].(prev := spare)];
      var root := blocks[0];
      root := root.(level := root.level + 1, next := ANCHOR, keys := [key], vals := [], kids := [spare, greater]);
      blocks := blocks[0 := root];
      Brelse(greaterBuf);
      Brelse(lesserBuf);
    }

    /** Evens out a full block with its left neighbour, if they share a parent. */
    method ShiftLeft(buf: nat, b: nat, path: array<PathNode>, ghost l: nat, ghost pos: seq<nat>) returns (moved: bool)
      requires File() && path.Length == MAX_DEPTH
      requires Tree(blocks, levels, b) && PathFrom(blocks, levels, path[..], pos, l)
      requires b == levels[l][pos[l]].bno && b < |blocks| && blocks[b].level == l && pos[l] > 0
      requires 0 <= blocks[b].prev < |blocks| && Uneven(l, blocks[b], blocks[blocks[b].prev])
      requires FreeAhead(busy, bufIdx, 2) && buf < MAX_BUFFERS
      modifies this
      ensures moved <==> path[l + 1].index != 0
      ensures File() && |blocks| == old(|blocks|) && bufIdx == old(bufIdx) + (if moved then 2 else 1)
      ensures busy == if moved then old(busy)[buf := false] else old(busy)
      ensures Total(levels) == old(Total(levels))
      ensures !moved ==> blocks == old(blocks) && levels == old(levels)
      ensures moved ==> Tree(blocks, levels, NO_BLOCK) && Pairs(blocks, levels[0]) == old(Pairs(blocks, levels[0]))
    {
      hide Total, Tree, Pairs, Uneven, Redivides, StepAt, Expand, LevelOk;
      PathChild(blocks, levels, path[..], pos, l, b);
      Neighbours(blocks, levels, l, pos[l], b);
      TakeOne(busy, bufIdx, 2);
      var right := blocks[b];
      var level := right.level + 1;
      var pbno := path[level].bno;
      var parentBuf := Bread(pbno);
      var index := path[level].index;
      if index == 0 {
        Brelse(parentBuf);
        return false;
      }
      index := index - 1;
      TakeOne(busy, bufIdx, 1);
      var lbno := right.prev;
      var leftBuf := Bread(lbno);
      var left := blocks[lbno];
      var sep, space := blocks[pbno].keys[index], (|right.keys| - |left.keys|) / 2;
      ghost var a, c := left, right;
      SpacePositive(l, right, left);
      var sep': nat;
      if right.level > 0 {
        left := left.(keys := left.keys + [sep] + right.keys[..space - 1], kids := left.kids + right.kids[..space]);
        sep' := right.keys[space - 1];
        right := right.(keys := right.keys[space..], kids := right.kids[space..]);
      } else {
        left := left.(keys := left.keys + right.keys[..space], vals := left.vals + right.vals[..space]);
        sep' := right.keys[space];
        right := right.(keys := right.keys[space..], vals := right.vals[space..]);
      }
      MovedLeft(l, a, c, sep, space, left, right, sep');
      ghost var levels' := RebalanceKeepsTree(blocks, levels, l, pos[l] - 1, pos[l + 1], index, b, left, right, sep');
      TotalUpdate(levels, l, levels'[l]);
      var parent := blocks[pbno];
      blocks := blocks[lbno := left][b := right][pbno := parent.(keys := parent.keys[index := sep'])];
      levels := levels';
      Brelse(buf);
      Brelse(leftBuf);
      Brelse(parentBuf);
      moved := true;
    }

    /** Evens out a full block with its right neighbour, if they share a parent. */
    method ShiftRight(buf: nat, b: nat, path: array<PathNode>, ghost l: nat, ghost pos: seq<nat>) returns (moved: bool)
      requires File() && path.Length == MAX_DEPTH
      requires Tree(blocks, levels, b) && PathFrom(blocks, levels, path[..], pos, l)
      requires b == levels[l][pos[l]].bno && b < |blocks| && blocks[b].level == l && pos[l] + 1 < |levels[l]|
      requires 0 <= blocks[b].next < |blocks| && Uneven(l, blocks[b], blocks[blocks[b].next])
      requires FreeAhead(busy, bufIdx, 2) && buf < MAX_BUFFERS
      modifies this
      ensures path[l + 1].bno < old(|blocks|)
      ensures moved <==> path[l + 1].index != |old(blocks[path[l + 1].bno]).keys|
      ensures File() && |blocks| == old(|blocks|) && bufIdx == old(bufIdx) + (if moved then 2 else 1)
      ensures busy == if moved then old(busy)[buf := false] else old(busy)
      ensures Total(levels) == old(Total(levels))
      ensures !moved ==> blocks == old(blocks) && levels == old(levels)
      ensures moved ==> Tree(blocks, levels, NO_BLOCK) && Pairs(blocks, levels[0]) == old(Pairs(blocks, levels[0]))
    {
      hide Total, Tree, Pairs, Uneven, Redivides, StepAt, Expand, LevelOk;
      PathChild(blocks, levels, path[..], pos, l, b);
      Neighbours(blocks, levels, l, pos[l], b);
      TakeOne(busy, bufIdx, 2);
      var left := blocks[b];
      var level := left.level + 1;
      var pbno := path[level].bno;
      var parentBuf := Bread(pbno);
      var index := path[level].index;
      if index == |blocks[pbno].keys| {
        Brelse(parentBuf);
        return false;
      }
      TakeOne(busy, bufIdx, 1);
      var rbno := left.next;
      var rightBuf := Bread(rbno);
      var right := blocks[rbno];
      var sep, space := blocks[pbno].keys[index], (|left.keys| - |right.keys|) / 2;
      ghost var a, c := left, right;
      SpacePositive(l, left, right);
      var cut := |left.keys| - space;
      var sep' := left.keys[cut];
      if left.level > 0 {
        right := right.(keys := left.keys[cut + 1..] + [sep] + right.keys, kids := left.kids[cut + 1..] + right.kids);
        left := left.(keys := left.keys[..cut], kids := left.kids[..cut + 1]);
      } else {
        right := right.(keys := left.keys[cut..] + right.keys, vals := left.vals[cut..] + right.vals);
        left := left.(keys := left.keys[..cut], vals := left.vals[..cut]);
      }
      MovedRight(l, a, c, sep, space, left, right, sep');
      ghost var levels' := RebalanceKeepsTree(blocks, levels, l, pos[l], pos[l + 1], index, b, left, right, sep');
      TotalUpdate(levels, l, levels'[l]);
      var parent := blocks[pbno];
      blocks := blocks[b := left][rbno := right][pbno := parent.(keys := parent.keys[index := sep'])];
      levels := levels';
      Brelse(rightBuf);
      Brelse(buf);
      Brelse(parentBuf);
      moved := true;
    }

    /** Relieves a full block: by a shift to a neighbour, else by a split that hands a new
        block to the parent or raises the root. */
    method Relieve(buf: nat, b: nat, path: array<PathNode>, l: nat, ghost pos: seq<nat>)
      requires File() && path.Length == MAX_DEPTH
      requires Tree(blocks, levels, b) && PathFrom(blocks, levels, path[..], pos, l)
      requires b == levels[l][pos[l]].bno && b < |blocks| && blocks[b].level == l && |blocks[b].keys| == Cap(l)
      requires |blocks| == Total(levels) && |blocks| + |levels| - l + 1 <= MAX_BLOCKS
      requires FreeAhead(busy, bufIdx, Breads(|levels| - l) - 1) && buf < MAX_BUFFERS
      modifies this
      ensures File() && Tree(blocks, levels, NO_BLOCK) && |blocks| == Total(levels)
      ensures Pairs(blocks, levels[0]) == old(Pairs(blocks, levels[0]))
      ensures busy == old(busy)[buf := false]
      decreases MAX_DEPTH - l, 0
    {
      hide Total, Tree, Pairs, Expand, StepAt, FreeAhead;
      PathChild(blocks, levels, path[..], pos, l, b);
      Neighbours(blocks, levels, l, pos[l], b);
      ghost var n := Breads(|levels| - l) - 1;
      var moved := TryLeft(buf, b, path, l, pos, n);
      if moved { return; }
      moved := TryRight(buf, b, path, l, pos, n - 2);
      if moved { return; }
      SplitUp(buf, b, path, l, pos);
    }

    /** The left neighbour, if there is one and it has room. */
    method TryLeft(buf: nat, b: nat, path: array<PathNode>, l: nat, ghost pos: seq<nat>, ghost n: nat)
      returns (moved: bool)
      requires File() && path.Length == MAX_DEPTH
      requires Tree(blocks, levels, b) && PathFrom(blocks, levels, path[..], pos, l)
      requires b == levels[l][pos[l]].bno && b < |blocks| && blocks[b].level == l && |blocks[b].keys| == Cap(l)
      requires n >= 4 && FreeAhead(busy, bufIdx, n) && buf < MAX_BUFFERS
      modifies this
      ensures File() && |blocks| == old(|blocks|) && Total(levels) == old(Total(levels))
      ensures moved <==> old(
        && blocks[b].prev != ANCHOR && 0 <= blocks[b].prev < |blocks|
        && |blocks[blocks[b].prev].keys| < Cap(blocks[blocks[b].prev].level)
        && ShiftPred(blocks[blocks[b].prev]) && path[l + 1].index != 0)
      ensures moved ==>
        && Tree(blocks, levels, NO_BLOCK) && Pairs(blocks, levels[0]) == old(Pairs(blocks, levels[0]))
        && busy == old(busy)[buf := false]
      ensures !moved ==>
        && blocks == old(blocks) && levels == old(levels) && busy == old(busy) && FreeAhead(busy, bufIdx, n - 2)
    {
      hide Total, Tree, Pairs, Expand, StepAt, FreeAhead;
      PathChild(blocks, levels, path[..], pos, l, b);
      Neighbours(blocks, levels, l, pos[l], b);
      ghost var t := bufIdx;
      moved := false;
      if blocks[b].prev != ANCHOR {
        TakeOne(busy, bufIdx, n);
        var leftBuf := Bread(blocks[b].prev);
        var roomy := ShiftPred(blocks[blocks[b].prev]);
        Brelse(leftBuf);
        if roomy {
          FreeLater(busy, t, n, bufIdx, 2);
          moved := ShiftLeft(buf, b, path, l, pos);
        }
      }
      if !moved { FreeLater(busy, t, n, bufIdx, n - 2); }
    }

    /** The right neighbour, if there is one and it has room. */
    method TryRight(buf: nat, b: nat, path: array<PathNode>, l: nat, ghost pos: seq<nat>, ghost n: nat)
      returns (moved: bool)
      requires File() && path.Length == MAX_DEPTH
      requires Tree(blocks, levels, b) && PathFrom(blocks, levels, path[..], pos, l)
      requires b == levels[l][pos[l]].bno && b < |blocks| && blocks[b].level == l && |blocks[b].keys| == Cap(l)
      requires n >= 4 && FreeAhead(busy, bufIdx, n) && buf < MAX_BUFFERS
      modifies this
      ensures File() && |blocks| == old(|blocks|) && Total(levels) == old(Total(levels))
      ensures moved <==> old(
        && blocks[b].next != ANCHOR && 0 <= blocks[b].next < |blocks|
        && |blocks[blocks[b].next].keys| < Cap(blocks[blocks[b].next].level)
        && ShiftPred(blocks[blocks[b].next])
        && path[l + 1].bno < |blocks| && path[l + 1].index != |blocks[path[l + 1].bno].keys|)
      ensures moved ==>
        && Tree(blocks, levels, NO_BLOCK) && Pairs(blocks, levels[0]) == old(Pairs(blocks, levels[0]))
        && busy == old(busy)[buf := false]
      ensures !moved ==>
        && blocks == old(blocks) && levels == old(levels) && busy == old(busy) && FreeAhead(busy, bufIdx, n - 2)
    {
      hide Total, Tree, Pairs, Expand, StepAt, FreeAhead;
      PathChild(blocks, levels, path[..], pos, l, b);
      Neighbours(blocks, levels, l, pos[l], b);
      ghost var t := bufIdx;
      moved := false;
      if blocks[b].next != ANCHOR {
        TakeOne(busy, bufIdx, n);
        var rightBuf := Bread(blocks[b].next);
        var roomy := ShiftPred(blocks[blocks[b].next]);
        Brelse(rightBuf);
        if roomy {
          FreeLater(busy, t, n, bufIdx, 2);
          moved := ShiftRight(buf, b, path, l, pos);
        }
      }
      if !moved { FreeLater(busy, t, n, bufIdx, n - 2); }
    }

    method SplitUp(buf: nat, b: nat, path: array<PathNode>, l: nat, ghost pos: seq<nat>)
      requires File() && path.Length == MAX_DEPTH
      requires Tree(blocks, levels, b) && PathFrom(blocks, levels, path[..], pos, l)
      requires b == levels[l][pos[l]].bno && b < |blocks| && blocks[b].level == l && |blocks[b].keys| == Cap(l)
      requires |blocks| == Total(levels) && |blocks| + |levels| - l + 1 <= MAX_BLOCKS
      requires FreeAhead(busy, bufIdx, Breads(|levels| - l) - 5) && buf < MAX_BUFFERS
      modifies this
      ensures File() && Tree(blocks, levels, NO_BLOCK) && |blocks| == Total(levels)
      ensures Pairs(blocks, levels[0]) == old(Pairs(blocks, levels[0]))
      ensures busy == old(busy)[buf := false]
      decreases MAX_DEPTH - l - 1, 2
    {
      hide Total, Tree, Pairs, SplitBlocks, RaisedBlocks, Expand, FreeAhead, StepAt;
      PathChild(blocks, levels, path[..], pos, l, b);
      Neighbours(blocks, levels, l, pos[l], b);
      ghost var was, path0 := blocks, path[..];
      ghost var n, t := Breads(|levels| - l) - 5, bufIdx;
      FreeLater(busy, t, n, t, 2);
      var greater, key := SplitNode(b);
      FreeLater(busy, t, n, bufIdx, n - 2);
      ghost var split := blocks;
      if path[l + 1].index != ROOT_ADDR {
        levels := SplitMakesReady(was, levels, path0, pos, l, blocks);
        InsertModify(path, key, greater, l + 1, pos);
      } else {
        IncreaseHeight(greater, key);
        levels := RaiseKeepsTree(was, levels, split, blocks);
      }
      Brelse(buf);
    }

    /** Puts a key with its payload (a datum at level 0, a new child above) into the block
        the path names, and restores the tree from there upwards. */
    method InsertModify(path: array<PathNode>, key: nat, payload: nat, level: nat, ghost pos: seq<nat>)
      requires File() && path.Length == MAX_DEPTH
      requires Ready(blocks, levels, path[..], pos, level, key, payload)
      requires |blocks| == Total(levels) && |blocks| + |levels| - level + 1 <= MAX_BLOCKS
      requires FreeAhead(busy, bufIdx, Breads(|levels| - level))
      modifies this
      ensures File() && Tree(blocks, levels, NO_BLOCK) && |blocks| == Total(levels)
      ensures var b := path[level].bno;
        Pairs(blocks, levels[0]) ==
        old(Pairs(blocks[b := Put(blocks[b], path[level].index, key, payload)], levels[0]))
      ensures busy == old(busy)
      decreases MAX_DEPTH - level, 1
    {
      hide Total, Tree, Pairs, Expand, Ready, PathFrom, FreeAhead, Put, CanPut;
      ReadyFacts(blocks, levels, path[..], pos, level, key, payload);
      var b, stop := path[level].bno, path[level].index;
      TakeOne(busy, bufIdx, Breads(|levels| - level));
      var buf := Bread(b);
      ghost var put := blocks[b := Put(blocks[b], stop, key, payload)];
      if |blocks[b].keys| == 0 {
        PutFirst(blocks[b], stop, key, payload);
        blocks := blocks[b := blocks[b].(keys := [key], vals := [payload])];
        Brelse(buf);
        NotFull(blocks, levels, b);
        return;
      }
      var n := PutEntry(blocks[b], stop, key, payload);
      blocks := blocks[b := n];
      if |n.keys| == Cap(n.level) {
        Relieve(buf, b, path, level, pos);
      } else {
        NotFull(blocks, levels, b);
        Brelse(buf);
      }
    }

    /** Makes room in a block and puts the key with its datum or child there. */
    static method PutEntry(was: Node, stop: nat, key: nat, payload: nat) returns (n: Node)
      requires CanPut(was, stop)
      ensures n == Put(was, stop, key, payload)
    {
      n := was.(keys := was.keys[..stop] + [key] + was.keys[stop..]);
      if n.level > 0 {
        n := n.(kids := n.kids[..stop + 1] + [payload] + n.kids[stop + 1..]);
      } else {
        n := n.(vals := n.vals[..stop] + [payload] + n.vals[stop..]);
      }
    }

    /** Descends to the leaf that covers `key`, saving the path, and serves the request there. */
    method LookupWork(bno: nat, key: Key, intent: Intent, path: array<PathNode>, ghost l: nat, ghost pos: seq<nat>)
      returns (rc: Outcome, datum: nat)
      requires Valid() && path.Length == MAX_DEPTH
      requires l < |levels| == |pos| && |levels| <= 4 && pos[l] < |levels[l]|
      requires if l == |levels| - 1 then bno == 0 else bno != 0 && PathFrom(blocks, levels, path[..], pos, l)
      requires bno == levels[l][pos[l]].bno && Lb(levels[l], pos[l]) <= key < levels[l][pos[l]].ub
      requires intent.Upsert? ==> |blocks| + |levels| + 1 <= MAX_BLOCKS
      modifies this, path
      ensures Valid()
      ensures intent.Find? ==> blocks == old(blocks) && levels == old(levels)
      ensures intent.Find? ==> rc == if key in Contents() then Found else NotFound
      ensures rc == Found ==> key in Contents() && datum == Contents()[key]
      ensures intent.Upsert? ==> Contents() == old(Contents())[key := intent.datum]
      ensures intent.Upsert? ==> rc == if key in old(Contents()) then Done else Inserted
      decreases l
    {
      hide Total, Tree, Expand, Pairs, MapOf, FreeAhead, Increasing;
      DescentStep(blocks, levels, l, pos[l], key);
      var buf := Bread(bno);
      if bno == 0 {
        path[blocks[bno].level + 1] := PathNode(ROOT_ADDR, ROOT_ADDR);
      }
      assert PathFrom(blocks, levels, path[..], pos, l);
      ghost var path0 := path[..];
      var cursor := IntraLookup(bno, key);
      path[blocks[bno].level] := PathNode(bno, cursor);
      Brelse(buf);
      if blocks[bno].level > 0 {
        var child := blocks[bno].kids[cursor];
        PathExtends(blocks, levels, path0, path[..], pos, l, cursor);
        ghost var i := Off(blocks, levels[l], pos[l]) + cursor;
        NotTheRoot(blocks, levels, l - 1, i);
        rc, datum := LookupWork(child, key, intent, path, l - 1, pos[l - 1 := i]);
      } else {
        PathKeeps(blocks, levels, path0, path[..], pos, 0);
        rc, datum := ServeAtLeaf(bno, cursor, key, intent, path, pos);
      }
    }

    /** The leaf part of a lookup: `cursor` is where the key is or would go. */
    method ServeAtLeaf(bno: nat, cursor: nat, key: Key, intent: Intent, path: array<PathNode>, ghost pos: seq<nat>)
      returns (rc: Outcome, datum: nat)
      requires Valid() && path.Length == MAX_DEPTH && |levels| <= 4
      requires PathFrom(blocks, levels, path[..], pos, 0) && path[0] == PathNode(bno, cursor)
      requires bno == levels[0][pos[0]].bno < |blocks|
      requires Lb(levels[0], pos[0]) <= key < levels[0][pos[0]].ub
      requires if key in blocks[bno].keys then cursor < |blocks[bno].keys| && blocks[bno].keys[cursor] == key
               else Gap(blocks[bno].keys, cursor, key)
      requires intent.Upsert? ==> |blocks| + |levels| + 1 <= MAX_BLOCKS
      modifies this
      ensures Valid()
      ensures intent.Find? ==> blocks == old(blocks) && levels == old(levels)
      ensures intent.Find? ==> rc == if key in Contents() then Found else NotFound
      ensures rc == Found ==> key in Contents() && datum == Contents()[key]
      ensures intent.Upsert? ==> Contents() == old(Contents())[key := intent.datum]
      ensures intent.Upsert? ==> rc == if key in old(Contents()) then Done else Inserted
    {
      hide Total, Tree, Expand, Pairs, MapOf, Leaves, Sorted;
      datum := 0;
      PathChild(blocks, levels, path[..], pos, 0, NO_BLOCK);
      TreeLevels(blocks, levels, NO_BLOCK, 0);
      KeyIsInItsLeaf(blocks, levels[0], pos[0], key);
      if cursor < |blocks[bno].keys| && blocks[bno].keys[cursor] == key {
        match intent {
          case Find =>
            LeafValue(blocks, levels[0], pos[0], cursor);
            datum, rc := blocks[bno].vals[cursor], Found;
          case Upsert(d) =>
            UpdateKeepsTree(blocks, levels, pos[0], cursor, d);
            blocks := blocks[bno := blocks[bno].(vals := blocks[bno].vals[cursor := d])];
            rc := Done;
        }
      } else {
        match intent {
          case Find =>
            rc := NotFound;
          case Upsert(d) =>
            InsertReady(blocks, levels, path[..], pos, key, d);
            AllFree();
            InsertModify(path, key, d, 0, pos);
            rc := Inserted;
        }
      }
    }

    lemma AllFree()
      requires Idle()
      ensures FreeAhead(busy, bufIdx, MAX_BUFFERS)
    {
    }

    /** Insert or update. */
    method Insert(key: Key, datum: nat)
      requires Valid() && HasRoom()
      modifies this
      ensures Valid() && Contents() == old(Contents())[key := datum]
    {
      hide Total, Tree, Expand, Pairs, MapOf;
      var path := new PathNode[MAX_DEPTH](_ => PathNode(0, 0));
      StartAtRoot(blocks, levels);
      var rc, _ := LookupWork(0, key, Upsert(datum), path, |levels| - 1, seq(|levels|, _ => 0));
      assert rc == Inserted || rc == Done;
    }

    /** The stored value, or nothing (ENOENT). */
    method Lookup(key: Key) returns (found: bool, datum: nat)
      requires Valid()
      modifies this
      ensures Valid() && blocks == old(blocks) && levels == old(levels)
      ensures found <==> key in Contents()
      ensures found ==> datum == Contents()[key]
    {
      hide Total, Tree, Expand, Pairs, MapOf;
      var path := new PathNode[MAX_DEPTH](_ => PathNode(0, 0));
      StartAtRoot(blocks, levels);
      var rc;
      rc, datum := LookupWork(0, key, Find, path, |levels| - 1, seq(|levels|, _ => 0));
      found := rc != NotFound;
    }
  }
}
