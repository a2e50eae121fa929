/** Splitting a full block, handing the new block to its parent, and raising the root. */
module BTreeSplit {
  import opened Flat
  import opened BTreeShape

  // ---- the split of one block

  /** Where a full block is cut, and the key that goes to the parent. */
  function Half(n: Node): nat { |n.keys| / 2 }

  function SplitKey(n: Node): nat
    requires |n.keys| >= 2
  {
    if n.level == 0 then n.keys[Half(n)] else n.keys[Half(n) - 1]
  }

  ghost predicate Full(n: Node) { Body(n, n.level) && |n.keys| == Cap(n.level) }

  /** The lesser half, which stays in its block. */
  function Lesser(n: Node, spare: nat): Node
    requires |n.keys| >= 2 && (n.level == 0 ==> |n.vals| == |n.keys|) && (n.level > 0 ==> |n.kids| == |n.keys| + 1)
  {
    if n.level == 0 then n.(keys := n.keys[..Half(n)], vals := n.vals[..Half(n)], next := spare)
    else n.(keys := n.keys[..Half(n) - 1], kids := n.kids[..Half(n)], next := spare)
  }

  /** The greater half, which moves to the block `spare`. */
  function Greater(n: Node, b: nat, spare: nat): Node
    requires |n.keys| >= 2 && (n.level == 0 ==> |n.vals| == |n.keys|) && (n.level > 0 ==> |n.kids| == |n.keys| + 1)
  {
    if n.level == 0 then
      n.(keys := n.keys[Half(n)..], vals := n.vals[Half(n)..], prev := b, fbn := spare)
    else
      n.(keys := n.keys[Half(n)..], kids := n.kids[Half(n)..], prev := b, fbn := spare)
  }

  /** All blocks after the split of block `b`; the new block is the last one. */
  ghost predicate SplitBlocks(bs: seq<Node>, b: nat, bs': seq<Node>) {
    && b < |bs| && |bs'| == |bs| + 1 && Full(bs[b])
    && bs'[b] == Lesser(bs[b], |bs|)
    && bs'[|bs|] == Greater(bs[b], b, |bs|)
    && forall c :: 0 <= c < |bs| && c != b ==>
      bs'[c] == (if c == bs[b].next then bs[c].(prev := |bs|) else bs[c])
  }

  function SplitLevel(lev: seq<Entry>, i: nat, key: nat, spare: nat): (r: seq<Entry>)
    requires i < |lev|
  {
    lev[..i] + [Entry(lev[i].bno, key), Entry(spare, lev[i].ub)] + lev[i + 1..]
  }

  lemma RecordsSplit(n: Node, b: nat, spare: nat)
    requires Full(n) && n.level == 0
    ensures Records(Lesser(n, spare)) + Records(Greater(n, b, spare)) == Records(n)
  {
  }

  lemma EntriesSplit(n: Node, b: nat, spare: nat, ub: nat)
    requires Full(n) && n.level > 0
    ensures Entries(Lesser(n, spare), SplitKey(n)) + Entries(Greater(n, b, spare), ub) == Entries(n, ub)
  {
  }

  /** Replacing one piece of a level by two keeps the concatenation. */
  lemma FlatMapSplitPiece<T>(f: Entry -> seq<T>, g: Entry -> seq<T>, lev: seq<Entry>, i: nat, key: nat, spare: nat)
    requires i < |lev|
    requires forall k :: 0 <= k < |lev| && k != i ==> g(lev[k]) == f(lev[k])
    requires g(Entry(lev[i].bno, key)) + g(Entry(spare, lev[i].ub)) == f(lev[i])
    ensures FlatMap(g, SplitLevel(lev, i, key, spare)) == FlatMap(f, lev)
  {
    var lev' := SplitLevel(lev, i, key, spare);
    FlatMapSplit(f, lev, i);
    FlatMapSplit2(g, lev', i);
    assert lev'[..i] == lev[..i] && lev'[i + 2..] == lev[i + 1..];
    FlatMapFrame(f, g, lev[..i]);
    FlatMapFrame(f, g, lev[i + 1..]);
  }

  // ---- the level of the split block

  lemma SplitShape(bs: seq<Node>, bs': seq<Node>, lev: seq<Entry>, l: nat, top: bool, i: nat, k: nat)
    requires i < |lev| && Shape(bs, lev, l, top, lev[i].bno) && Distinct(lev) && (top ==> |lev| == 1)
    requires SplitBlocks(bs, lev[i].bno, bs')
    requires k < |lev| + 1
    ensures NodeOk(bs', SplitLevel(lev, i, SplitKey(bs[lev[i].bno]), |bs|)[k].bno, l, false, NO_BLOCK)
  {
    assert NodeOk(bs, lev[i].bno, l, top, lev[i].bno);
    if k < i {
      assert NodeOk(bs, lev[k].bno, l, top, lev[i].bno);
      assert lev[k].bno != lev[i].bno;
    } else if k > i + 1 {
      assert NodeOk(bs, lev[k - 1].bno, l, top, lev[i].bno);
      assert lev[i].bno != lev[k - 1].bno;
    }
  }

  lemma SplitLinks(bs: seq<Node>, bs': seq<Node>, lev: seq<Entry>, i: nat, key: nat, k: nat)
    requires i < |lev| && Links(bs, lev) && Distinct(lev)
    requires forall k :: 0 <= k < |lev| ==> lev[k].bno < |bs|
    requires SplitBlocks(bs, lev[i].bno, bs')
    requires k < |lev| + 1
    ensures LinkOk(bs', SplitLevel(lev, i, key, |bs|), k)
  {
    var lev' := SplitLevel(lev, i, key, |bs|);
    assert LinkOk(bs, lev, i);
    if k < i {
      assert LinkOk(bs, lev, k);
      assert lev[k].bno != lev[i].bno;
      assert i + 1 < |lev| ==> lev[k].bno != lev[i + 1].bno;
      assert lev'[k] == lev[k] && (k > 0 ==> lev'[k - 1] == lev[k - 1]) && lev'[k + 1].bno == lev[k + 1].bno;
    } else if k == i {
      assert lev'[i].bno == lev[i].bno && lev'[i + 1].bno == |bs|;
      assert i > 0 ==> lev'[i - 1] == lev[i - 1];
    } else if k == i + 1 {
      assert lev'[k].bno == |bs| && lev'[k - 1].bno == lev[i].bno;
      assert k + 1 < |lev'| ==> lev'[k + 1] == lev[k];
    } else {
      assert LinkOk(bs, lev, k - 1);
      assert lev'[k] == lev[k - 1] && (k + 1 < |lev'| ==> lev'[k + 1] == lev[k]);
      assert lev[i].bno != lev[k - 1].bno;
      assert k > i + 2 ==> lev[i + 1].bno != lev[k - 1].bno && lev'[k - 1] == lev[k - 2];
    }
  }

  lemma SplitDistinct(bs: seq<Node>, lev: seq<Entry>, i: nat, key: nat)
    requires i < |lev| && Distinct(lev)
    requires forall k :: 0 <= k < |lev| ==> lev[k].bno < |bs|
    ensures Distinct(SplitLevel(lev, i, key, |bs|))
  {
    var lev' := SplitLevel(lev, i, key, |bs|);
    assert forall k :: 0 <= k <= i ==> lev'[k].bno == lev[k].bno;
    assert lev'[i + 1].bno == |bs|;
    assert forall k :: i + 1 < k < |lev'| ==> lev'[k] == lev[k - 1];
  }

  lemma SplitSorted(lev: seq<Entry>, i: nat, key: nat, spare: nat)
    requires i < |lev| && Sorted(lev)
    requires (i == 0 || Lb(lev, i) < key) && key < lev[i].ub
    ensures Sorted(SplitLevel(lev, i, key, spare))
  {
    var lev' := SplitLevel(lev, i, key, spare);
    assert forall k :: 0 <= k < i ==> lev'[k] == lev[k];
    assert lev'[i].ub == key && lev'[i + 1].ub == lev[i].ub;
    assert forall k :: i + 1 < k < |lev'| ==> lev'[k] == lev[k - 1];
    assert i > 0 ==> forall k :: 0 <= k < i ==> lev[k].ub <= lev[i - 1].ub;
  }

  lemma SplitLeaves(bs: seq<Node>, bs': seq<Node>, lev: seq<Entry>, i: nat)
    requires i < |lev| && Leaves(bs, lev) && Sorted(lev) && Distinct(lev)
    requires forall k :: 0 <= k < |lev| ==> lev[k].bno < |bs|
    requires SplitBlocks(bs, lev[i].bno, bs') && bs[lev[i].bno].level == 0
    ensures var lev' := SplitLevel(lev, i, SplitKey(bs[lev[i].bno]), |bs|);
      Leaves(bs', lev') && Sorted(lev')
  {
    var n := bs[lev[i].bno];
    var key := SplitKey(n);
    var lev' := SplitLevel(lev, i, key, |bs|);
    assert LeafOk(bs, lev, i);
    assert n.keys == n.keys[..Half(n)] + n.keys[Half(n)..];
    WithinSplit(n.keys[..Half(n)], n.keys[Half(n)..], Lb(lev, i), lev[i].ub);
    SplitSorted(lev, i, key, |bs|);
    forall k | 0 <= k < |lev'| ensures LeafOk(bs', lev', k) {
      if k != i && k != i + 1 { SplitLeafAt(bs, bs', lev, i, key, k); }
    }
  }

  lemma SplitLeafAt(bs: seq<Node>, bs': seq<Node>, lev: seq<Entry>, i: nat, key: nat, k: nat)
    requires i < |lev| && Leaves(bs, lev) && Distinct(lev)
    requires forall k :: 0 <= k < |lev| ==> lev[k].bno < |bs|
    requires SplitBlocks(bs, lev[i].bno, bs') && k < |lev| + 1 && k != i && k != i + 1
    ensures var lev' := SplitLevel(lev, i, key, |bs|);
      LeafOk(bs', lev', k)
  {
    var lev' := SplitLevel(lev, i, key, |bs|);
    if k < i {
      assert LeafOk(bs, lev, k);
      assert lev[k].bno != lev[i].bno && lev'[k] == lev[k];
    } else {
      assert LeafOk(bs, lev, k - 1);
      assert lev[i].bno != lev[k - 1].bno && lev'[k] == lev[k - 1] && lev'[k - 1].ub == lev[k - 2].ub;
    }
  }

  /** The level of the split block is in order again, with one more block. */
  lemma LevelSplit(bs: seq<Node>, bs': seq<Node>, lev: seq<Entry>, l: nat, top: bool, i: nat)
    requires i < |lev| && LevelOn(bs, lev, l, top, lev[i].bno) && (top ==> |lev| == 1)
    requires lev[i].bno < |bs| && SplitBlocks(bs, lev[i].bno, bs')
    requires l > 0 ==> Sorted(Expand(bs, lev))
    ensures var lev' := SplitLevel(lev, i, SplitKey(bs[lev[i].bno]), |bs|);
      && LevelOn(bs', lev', l, false, NO_BLOCK)
      && (l == 0 ==> Pairs(bs', lev') == Pairs(bs, lev))
      && (l > 0 ==> Expand(bs', lev') == Expand(bs, lev))
  {
    var lev' := SplitLevel(lev, i, SplitKey(bs[lev[i].bno]), |bs|);
    LevelSplitShape(bs, bs', lev, l, top, i);
    if l == 0 {
      SplitLeaves(bs, bs', lev, i);
      SplitPairs(bs, bs', lev, i);
    } else {
      SplitExpand(bs, bs', lev, l, i);
      forall k | 0 <= k < |lev'| ensures Body(At(bs', lev'[k].bno), 1) {
        assert NodeOk(bs', lev'[k].bno, l, false, NO_BLOCK);
      }
      SortedUp(bs', lev');
    }
  }

  lemma LevelSplitShape(bs: seq<Node>, bs': seq<Node>, lev: seq<Entry>, l: nat, top: bool, i: nat)
    requires i < |lev| && LevelOn(bs, lev, l, top, lev[i].bno) && (top ==> |lev| == 1)
    requires lev[i].bno < |bs| && SplitBlocks(bs, lev[i].bno, bs')
    ensures forall k :: 0 <= k < |lev| ==> lev[k].bno < |bs|
    ensures bs[lev[i].bno].level == l
    ensures var lev' := SplitLevel(lev, i, SplitKey(bs[lev[i].bno]), |bs|);
      Shape(bs', lev', l, false, NO_BLOCK) && Links(bs', lev') && Distinct(lev')
  {
    hide Sorted, Leaves;
    var key := SplitKey(bs[lev[i].bno]);
    var lev' := SplitLevel(lev, i, key, |bs|);
    forall k | 0 <= k < |lev| ensures lev[k].bno < |bs| && bs[lev[k].bno].level == l {
      assert NodeOk(bs, lev[k].bno, l, top, lev[i].bno);
    }
    forall k | 0 <= k < |lev'| ensures NodeOk(bs', lev'[k].bno, l, false, NO_BLOCK) && LinkOk(bs', lev', k) {
      SplitShape(bs, bs', lev, l, top, i, k);
      SplitLinks(bs, bs', lev, i, key, k);
    }
    SplitDistinct(bs, lev, i, key);
    assert lev'[|lev'| - 1].ub == INF;
  }

  lemma SplitPairs(bs: seq<Node>, bs': seq<Node>, lev: seq<Entry>, i: nat)
    requires i < |lev| && Distinct(lev)
    requires forall k :: 0 <= k < |lev| ==> lev[k].bno < |bs|
    requires SplitBlocks(bs, lev[i].bno, bs') && bs[lev[i].bno].level == 0
    ensures Pairs(bs', SplitLevel(lev, i, SplitKey(bs[lev[i].bno]), |bs|)) == Pairs(bs, lev)
  {
    var n := bs[lev[i].bno];
    RecordsSplit(n, lev[i].bno, |bs|);
    forall k | 0 <= k < |lev| && k != i ensures RecordsOf(bs')(lev[k]) == RecordsOf(bs)(lev[k]) {
      assert lev[k].bno != lev[i].bno;
    }
    FlatMapSplitPiece(RecordsOf(bs), RecordsOf(bs'), lev, i, SplitKey(n), |bs|);
  }

  lemma SplitExpand(bs: seq<Node>, bs': seq<Node>, lev: seq<Entry>, l: nat, i: nat)
    requires i < |lev| && Distinct(lev) && l > 0
    requires forall k :: 0 <= k < |lev| ==> lev[k].bno < |bs|
    requires SplitBlocks(bs, lev[i].bno, bs') && bs[lev[i].bno].level == l
    ensures Expand(bs', SplitLevel(lev, i, SplitKey(bs[lev[i].bno]), |bs|)) == Expand(bs, lev)
  {
    var n := bs[lev[i].bno];
    EntriesSplit(n, lev[i].bno, |bs|, lev[i].ub);
    forall k | 0 <= k < |lev| && k != i ensures KidsOf(bs')(lev[k]) == KidsOf(bs)(lev[k]) {
      assert lev[k].bno != lev[i].bno;
    }
    FlatMapSplitPiece(KidsOf(bs), KidsOf(bs'), lev, i, SplitKey(n), |bs|);
  }

  // ---- the parent of the split block

  /** A node with one more key, and the new child to the right of that key. */
  function WithChild(p: Node, j: nat, key: nat, child: nat): (r: Node)
    requires j <= |p.keys| && j < |p.kids|
  {
    p.(keys := p.keys[..j] + [key] + p.keys[j..], kids := p.kids[..j + 1] + [child] + p.kids[j + 1..])
  }

  lemma EntriesWithChild(p: Node, j: nat, key: nat, child: nat, ub: nat)
    requires Body(p, 1) && j < |p.kids|
    ensures var e := Entries(p, ub);
      Entries(WithChild(p, j, key, child), ub) == SplitLevel(e, j, key, child)
  {
    var e, e' := Entries(p, ub), Entries(WithChild(p, j, key, child), ub);
    var r := SplitLevel(e, j, key, child);
    forall k | 0 <= k < |r| ensures e'[k] == r[k] {
      if k > j + 1 {
        assert r[k] == e[k - 1];
      }
    }
  }

  /** The parent that takes the new child spells out the split level. */
  lemma ExpandWithChild(bs: seq<Node>, bs': seq<Node>, up: seq<Entry>, q: nat, j: nat, key: nat, child: nat)
    requires q < |up| && Distinct(up)
    requires forall k :: 0 <= k < |up| ==> up[k].bno < |bs| <= |bs'|
    requires Body(bs[up[q].bno], 1) && j < |bs[up[q].bno].kids|
    requires bs'[up[q].bno] == WithChild(bs[up[q].bno], j, key, child)
    requires forall k :: 0 <= k < |up| && k != q ==> bs'[up[k].bno] == bs[up[k].bno]
    ensures Off(bs, up, q) + j < |Expand(bs, up)|
    ensures Expand(bs', up) == SplitLevel(Expand(bs, up), Off(bs, up, q) + j, key, child)
  {
    hide Expand, SplitLevel;
    var p := bs[up[q].bno];
    ExpandAround(bs, bs', up, q);
    ChildPos(bs, up, q, j);
    EntriesWithChild(p, j, key, child, up[q].ub);
    SplitLevelInside(Expand(bs, up[..q]), Entries(p, up[q].ub), Expand(bs, up[q + 1..]), j, key, child);
  }

  lemma SplitLevelInside(a: seq<Entry>, e: seq<Entry>, c: seq<Entry>, j: nat, key: nat, child: nat)
    requires j < |e|
    ensures a + SplitLevel(e, j, key, child) + c == SplitLevel(a + e + c, |a| + j, key, child)
  {
    var s := a + e + c;
    assert s[|a| + j] == e[j];
    assert s[..|a| + j] == a + e[..j];
    assert s[|a| + j + 1..] == e[j + 1..] + c;
  }

  /** The level of the parent, once it has the new child. */
  lemma LevelWithChild(bs: seq<Node>, bs': seq<Node>, up: seq<Entry>, l: nat, top: bool, q: nat, j: nat,
                       key: nat, child: nat)
    requires l > 0 && q < |up| && LevelOn(bs, up, l, top, NO_BLOCK) && |bs| <= |bs'|
    requires up[q].bno < |bs| && j < |bs[up[q].bno].kids| && Body(bs[up[q].bno], l)
    requires bs'[up[q].bno] == WithChild(bs[up[q].bno], j, key, child)
    requires forall b :: 0 <= b < |bs| && bs[b].level == l && b != up[q].bno ==> bs'[b] == bs[b]
    ensures LevelOn(bs', up, l, top, up[q].bno)
    ensures Off(bs, up, q) + j < |Expand(bs, up)|
    ensures Expand(bs', up) == SplitLevel(Expand(bs, up), Off(bs, up, q) + j, key, child)
  {
    forall k | 0 <= k < |up|
      ensures NodeOk(bs', up[k].bno, l, top, up[q].bno) && up[k].bno < |bs|
      ensures k != q ==> bs'[up[k].bno] == bs[up[k].bno]
    {
      assert NodeOk(bs, up[k].bno, l, top, NO_BLOCK);
      assert k < q ==> up[k].bno != up[q].bno;
      assert k > q ==> up[q].bno != up[k].bno;
    }
    forall k | 0 <= k < |up| ensures LinkOk(bs', up, k) {
      assert LinkOk(bs, up, k);
    }
    ExpandWithChild(bs, bs', up, q, j, key, child);
  }

  /** A full block was split below the root: the tree is in order as soon as the
      parent takes the new block, and may then be full itself. */
  lemma SplitKeepsTree(bs: seq<Node>, levels: seq<seq<Entry>>, l: nat, i: nat, q: nat, j: nat, bs1: seq<Node>)
    returns (levels': seq<seq<Entry>>)
    requires l + 1 < |levels| && i < |levels[l]| && q < |levels[l + 1]|
    requires Tree(bs, levels, levels[l][i].bno)
    requires SplitBlocks(bs, levels[l][i].bno, bs1)
    requires levels[l + 1][q].bno < |bs| && j < |bs[levels[l + 1][q].bno].kids|
    requires i == Off(bs, levels[l + 1], q) + j
    ensures var p := levels[l + 1][q].bno; var key := SplitKey(bs[levels[l][i].bno]);
      && p < |bs1| && bs1[p] == bs[p] && j <= |bs1[p].keys| && j < |bs1[p].kids|
      && Tree(bs1[p := WithChild(bs1[p], j, key, |bs|)], levels', p)
      && Pairs(bs1[p := WithChild(bs1[p], j, key, |bs|)], levels'[0]) == Pairs(bs, levels[0])
      && levels' == levels[l := SplitLevel(levels[l], i, key, |bs|)]
  {
    hide Tree, LevelOn, Expand, Pairs, Sorted;
    var lev, up := levels[l], levels[l + 1];
    var x, p := lev[i].bno, up[q].bno;
    var key := SplitKey(bs[x]);
    levels' := levels[l := SplitLevel(lev, i, key, |bs|)];
    TreeLevels(bs, levels, x, l);
    SplitBlocksPlaces(bs, bs1, lev, up, l, l + 1 == |levels| - 1, i, q);
    var bs2 := bs1[p := WithChild(bs1[p], j, key, |bs|)];
    LevelSplit(bs, bs1, lev, l, false, i);
    LevelFrameOn(bs1, bs2, levels'[l], l, false, NO_BLOCK, p);
    LevelWithChild(bs, bs2, up, l + 1, l + 1 == |levels| - 1, q, j, key, |bs|);
    TwoLevelsRewritten(bs, levels, x, bs2, levels', p, l);
  }

  /** Which blocks a split touches. */
  lemma SplitBlocksPlaces(bs: seq<Node>, bs1: seq<Node>, lev: seq<Entry>, up: seq<Entry>, l: nat, top: bool,
                          i: nat, q: nat)
    requires i < |lev| && q < |up|
    requires LevelOn(bs, lev, l, false, lev[i].bno) && LevelOn(bs, up, l + 1, top, lev[i].bno)
    requires SplitBlocks(bs, lev[i].bno, bs1)
    ensures SameElsewhere(bs, bs1, l)
    ensures forall b :: 0 <= b < |bs| && bs[b].level == l + 1 ==> bs1[b] == bs[b]
    ensures up[q].bno < |bs| && bs[up[q].bno].level == l + 1 && Body(bs[up[q].bno], l + 1)
    ensures bs[lev[i].bno].level == l
    ensures LevelOn(bs, up, l + 1, top, NO_BLOCK)
  {
    assert NodeOk(bs, lev[i].bno, l, false, lev[i].bno);
    assert NodeOk(bs, up[q].bno, l + 1, top, lev[i].bno);
    assert LinkOk(bs, lev, i);
    if i + 1 < |lev| {
      assert NodeOk(bs, lev[i + 1].bno, l, false, lev[i].bno);
    }
    forall k | 0 <= k < |up| ensures NodeOk(bs, up[k].bno, l + 1, top, NO_BLOCK) {
      assert NodeOk(bs, up[k].bno, l + 1, top, lev[i].bno);
    }
  }

  // ---- raising the root

  /** All blocks after the root was copied to a new block and became the parent of
      that copy and of block `g`. */
  ghost predicate RaisedBlocks(bs: seq<Node>, g: nat, key: nat, bs': seq<Node>) {
    && 0 < g < |bs| && |bs'| == |bs| + 1
    && bs'[|bs|] == bs[0].(fbn := |bs|)
    && bs'[g] == bs[g].(prev := |bs|)
    && bs'[0] == Node(bs[0].magic, bs[0].fbn, bs[0].level + 1, [key], [], [|bs|, g], bs[0].prev, ANCHOR)
    && forall c :: 0 < c < |bs| && c != g ==> bs'[c] == bs[c]
  }

  /** The level below the new root. */
  lemma RaisedLevel(bs: seq<Node>, bs': seq<Node>, l: nat, g: nat, key: nat)
    requires LevelOn(bs, [Entry(0, key), Entry(g, INF)], l, false, NO_BLOCK)
    requires RaisedBlocks(bs, g, key, bs')
    ensures LevelOn(bs', [Entry(|bs|, key), Entry(g, INF)], l, false, NO_BLOCK)
    ensures Expand(bs', [Entry(|bs|, key), Entry(g, INF)]) == Expand(bs, [Entry(0, key), Entry(g, INF)])
    ensures Pairs(bs', [Entry(|bs|, key), Entry(g, INF)]) == Pairs(bs, [Entry(0, key), Entry(g, INF)])
  {
    var old2, new2 := [Entry(0, key), Entry(g, INF)], [Entry(|bs|, key), Entry(g, INF)];
    assert NodeOk(bs, old2[0].bno, l, false, NO_BLOCK) && NodeOk(bs, old2[1].bno, l, false, NO_BLOCK);
    assert LinkOk(bs, old2, 0) && LinkOk(bs, old2, 1);
    assert LinkOk(bs', new2, 0) && LinkOk(bs', new2, 1);
    assert l == 0 ==> LeafOk(bs, old2, 0) && LeafOk(bs, old2, 1);
    assert old2[0].ub < old2[1].ub;
    RaisedBelow(bs, bs', g, key);
  }

  lemma RaisedBelow(bs: seq<Node>, bs': seq<Node>, g: nat, key: nat)
    requires RaisedBlocks(bs, g, key, bs')
    ensures Expand(bs', [Entry(|bs|, key), Entry(g, INF)]) == Expand(bs, [Entry(0, key), Entry(g, INF)])
    ensures Pairs(bs', [Entry(|bs|, key), Entry(g, INF)]) == Pairs(bs, [Entry(0, key), Entry(g, INF)])
  {
    var old2, new2 := [Entry(0, key), Entry(g, INF)], [Entry(|bs|, key), Entry(g, INF)];
    FlatMapSplit2(KidsOf(bs), old2, 0);
    FlatMapSplit2(KidsOf(bs'), new2, 0);
    FlatMapSplit2(RecordsOf(bs), old2, 0);
    FlatMapSplit2(RecordsOf(bs'), new2, 0);
  }

  lemma RootLevel(bs: seq<Node>, bs': seq<Node>, l: nat, g: nat, key: nat)
    requires RaisedBlocks(bs, g, key, bs')
    requires bs[0].magic == MAGIC && bs[0].fbn == 0 && bs[0].level == l && bs[0].prev == ANCHOR
    ensures LevelOn(bs', [Entry(0, INF)], l + 1, true, NO_BLOCK)
    ensures Expand(bs', [Entry(0, INF)]) == [Entry(|bs|, key), Entry(g, INF)]
  {
    FlatMapOne(KidsOf(bs'), Entry(0, INF));
    assert LinkOk(bs', [Entry(0, INF)], 0);
  }

  /** A full root was split and raised: the tree has one more level, block 0 is still
      its root, and it holds the same records. */
  lemma RaiseKeepsTree(bs: seq<Node>, levels: seq<seq<Entry>>, bs1: seq<Node>, bs2: seq<Node>)
    returns (levels': seq<seq<Entry>>)
    requires Tree(bs, levels, 0) && SplitBlocks(bs, 0, bs1)
    requires bs[0].level == |levels| - 1
    requires RaisedBlocks(bs1, |bs|, SplitKey(bs[0]), bs2)
    ensures Tree(bs2, levels', NO_BLOCK)
    ensures Pairs(bs2, levels'[0]) == Pairs(bs, levels[0])
    ensures |levels'| == |levels| + 1 && Total(levels') == Total(levels) + 2
  {
    hide Tree, LevelOn, Expand, Pairs, Sorted;
    var l, key := |levels| - 1, SplitKey(bs[0]);
    var low := [Entry(|bs1|, key), Entry(|bs|, INF)];
    levels' := levels[l := low] + [[Entry(0, INF)]];
    TreeLevels(bs, levels, 0, l);
    TotalUpdate(levels, l, low);
    TotalAppend(levels[l := low], [Entry(0, INF)]);
    LevelSplit(bs, bs1, levels[l], l, true, 0);
    assert SplitLevel(levels[l], 0, key, |bs|) == [Entry(0, key), Entry(|bs|, INF)];
    RaisedLevel(bs1, bs2, l, |bs|, key);
    RootFacts(bs, l);
    RootLevel(bs1, bs2, l, |bs|, key);
    RaisedTree(bs, levels, bs1, bs2, levels');
  }

  lemma RootFacts(bs: seq<Node>, l: nat)
    requires LevelOn(bs, [Entry(0, INF)], l, true, 0)
    ensures |bs| > 0 && bs[0].magic == MAGIC && bs[0].fbn == 0 && bs[0].level == l
    ensures bs[0].prev == ANCHOR && bs[0].next == ANCHOR
  {
    var lev := [Entry(0, INF)];
    assert NodeOk(bs, lev[0].bno, l, true, 0) && LinkOk(bs, lev, 0);
  }

  lemma RaisedTree(bs: seq<Node>, levels: seq<seq<Entry>>, bs1: seq<Node>, bs2: seq<Node>, levels': seq<seq<Entry>>)
    requires Tree(bs, levels, 0) && SplitBlocks(bs, 0, bs1) && bs[0].level == |levels| - 1
    requires bs[0].next == ANCHOR
    requires RaisedBlocks(bs1, |bs|, SplitKey(bs[0]), bs2)
    requires |levels'| == |levels| + 1 && levels'[|levels|] == [Entry(0, INF)]
    requires forall m :: 0 <= m < |levels| - 1 ==> levels'[m] == levels[m]
    requires var l := |levels| - 1; var low := levels'[l];
      && LevelOn(bs2, low, l, false, NO_BLOCK)
      && (l > 0 ==> Expand(bs2, low) == levels[l - 1])
      && (l == 0 ==> Pairs(bs2, low) == Pairs(bs, levels[0]))
      && LevelOn(bs2, [Entry(0, INF)], l + 1, true, NO_BLOCK) && Expand(bs2, [Entry(0, INF)]) == low
    ensures Tree(bs2, levels', NO_BLOCK)
    ensures Pairs(bs2, levels'[0]) == Pairs(bs, levels[0])
  {
    hide LevelOn, Expand, Pairs;
    forall m | 0 <= m < |levels'| ensures LevelOk(bs2, levels', m, NO_BLOCK) {
      if m < |levels| - 1 {
        assert LevelOk(bs, levels, m, 0);
        LevelFrameOn(bs, bs2, levels[m], m, false, 0, NO_BLOCK);
      }
    }
    if |levels| > 1 {
      assert LevelOk(bs, levels, 0, 0);
      LevelFrameOn(bs, bs2, levels[0], 0, false, 0, NO_BLOCK);
    }
  }
}
