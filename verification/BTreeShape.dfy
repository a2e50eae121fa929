/** Blocks of the index file and what it means for them to form a B+ tree.

    The tree is described level by level.  A level is the left-to-right list of its
    blocks, each with the exclusive upper bound of the keys below it; the list of a
    level is exactly what the blocks of the level above spell out. */
module BTreeShape {
  import opened Flat

  const LEAF_CAP: nat := 253   // (4096 - 40 - 8) / (8 + 8)
  const NODE_CAP: nat := 337   // (4096 - 40 - 4) / (8 + 4)
  const LEAF_MIN: nat := 126
  const NODE_MIN: nat := 167
  const INF: nat := 0x1_0000_0000_0000_0000
  const MAGIC: nat := 0xa55a_5aa5
  const ANCHOR: int := -1      // 0xffffffff read back as int32_t
  const NO_BLOCK: int := -1

  /** A block: its header, and the used part of its key, payload and child arrays. */
  datatype Node = Node(magic: nat, fbn: nat, level: nat, keys: seq<nat>,
                       vals: seq<nat>, kids: seq<nat>, prev: int, next: int)

  const ZERO_NODE := Node(0, 0, 0, [], [], [], 0, 0)

  /** A block of one level and the exclusive upper bound of the keys under it. */
  datatype Entry = Entry(bno: nat, ub: nat)

  function Cap(l: nat): nat { if l == 0 then LEAF_CAP else NODE_CAP }
  function MinKeys(l: nat): nat { if l == 0 then LEAF_MIN else NODE_MIN }

  function At(bs: seq<Node>, b: nat): Node { if b < |bs| then bs[b] else ZERO_NODE }

  /** The children a node spells out, each with its upper bound. */
  function Entries(n: Node, ub: nat): (r: seq<Entry>) {
    seq(|n.kids|, j requires 0 <= j < |n.kids| =>
      Entry(n.kids[j], if j < |n.keys| then n.keys[j] else ub))
  }

  function Records(n: Node): (r: seq<(nat, nat)>) {
    seq(|n.keys|, j requires 0 <= j < |n.keys| =>
      (n.keys[j], if j < |n.vals| then n.vals[j] else 0))
  }

  function KidsOf(bs: seq<Node>): Entry -> seq<Entry> { (e: Entry) => Entries(At(bs, e.bno), e.ub) }
  function RecordsOf(bs: seq<Node>): Entry -> seq<(nat, nat)> { (e: Entry) => Records(At(bs, e.bno)) }

  /** The level below `lev`. */
  function Expand(bs: seq<Node>, lev: seq<Entry>): seq<Entry> { FlatMap(KidsOf(bs), lev) }

  /** The stored records under a leaf level, in leaf order. */
  function Pairs(bs: seq<Node>, lev: seq<Entry>): seq<(nat, nat)> { FlatMap(RecordsOf(bs), lev) }

  /** Where the children of the `i`-th block of `lev` start in the level below. */
  function Off(bs: seq<Node>, lev: seq<Entry>, i: nat): nat
    requires i <= |lev|
  {
    |Expand(bs, lev[..i])|
  }

  ghost predicate Body(n: Node, l: nat) {
    if l == 0 then |n.vals| == |n.keys| && n.kids == []
    else n.vals == [] && |n.kids| == |n.keys| + 1
  }

  ghost predicate NodeOk(bs: seq<Node>, b: nat, l: nat, top: bool, over: int) {
    && b < |bs|
    && bs[b].magic == MAGIC && bs[b].fbn == b && bs[b].level == l
    && Body(bs[b], l)
    && |bs[b].keys| <= (if b == over then Cap(l) else Cap(l) - 1)
    && (if top then l > 0 ==> |bs[b].keys| >= 1 else |bs[b].keys| >= MinKeys(l))
  }

  ghost predicate Shape(bs: seq<Node>, lev: seq<Entry>, l: nat, top: bool, over: int) {
    && lev != [] && lev[|lev| - 1].ub == INF
    && forall i :: 0 <= i < |lev| ==> NodeOk(bs, lev[i].bno, l, top, over)
  }

  ghost predicate LinkOk(bs: seq<Node>, lev: seq<Entry>, i: nat)
    requires i < |lev|
  {
    && At(bs, lev[i].bno).prev == (if i == 0 then ANCHOR else lev[i - 1].bno)
    && At(bs, lev[i].bno).next == (if i == |lev| - 1 then ANCHOR else lev[i + 1].bno)
  }

  ghost predicate Links(bs: seq<Node>, lev: seq<Entry>) {
    forall i :: 0 <= i < |lev| ==> LinkOk(bs, lev, i)
  }

  ghost predicate Distinct(lev: seq<Entry>) {
    forall i, j :: 0 <= i < j < |lev| ==> lev[i].bno != lev[j].bno
  }

  ghost predicate Sorted(lev: seq<Entry>) {
    forall i, j :: 0 <= i < j < |lev| ==> lev[i].ub < lev[j].ub
  }

  function Lb(lev: seq<Entry>, i: nat): nat
    requires i < |lev|
  {
    if i == 0 then 0 else lev[i - 1].ub
  }

  ghost predicate Within(ks: seq<nat>, lo: nat, hi: nat) {
    && (forall i, j :: 0 <= i < j < |ks| ==> ks[i] < ks[j])
    && (forall i :: 0 <= i < |ks| ==> lo <= ks[i] < hi)
  }

  ghost predicate LeafOk(bs: seq<Node>, lev: seq<Entry>, i: nat)
    requires i < |lev|
  {
    Within(At(bs, lev[i].bno).keys, Lb(lev, i), lev[i].ub)
  }

  ghost predicate Leaves(bs: seq<Node>, lev: seq<Entry>) {
    forall i :: 0 <= i < |lev| ==> LeafOk(bs, lev, i)
  }

  /** One level on its own. */
  ghost predicate LevelOn(bs: seq<Node>, lev: seq<Entry>, l: nat, top: bool, over: int) {
    && Shape(bs, lev, l, top, over)
    && Links(bs, lev)
    && Distinct(lev)
    && Sorted(lev)
    && (l == 0 ==> Leaves(bs, lev))
  }

  ghost predicate LevelOk(bs: seq<Node>, levels: seq<seq<Entry>>, l: nat, over: int)
    requires l < |levels|
  {
    && LevelOn(bs, levels[l], l, l == |levels| - 1, over)
    && (l > 0 ==> levels[l - 1] == Expand(bs, levels[l]))
  }

  /** `levels` describes the blocks `bs` as a B+ tree whose root is block 0.  Every
      block is below its capacity, except that block `over` may be exactly full. */
  ghost predicate Tree(bs: seq<Node>, levels: seq<seq<Entry>>, over: int) {
    && |levels| >= 1
    && levels[|levels| - 1] == [Entry(0, INF)]
    && forall l :: 0 <= l < |levels| ==> LevelOk(bs, levels, l, over)
  }

  /** Number of blocks on all levels together. */
  function Total(levels: seq<seq<Entry>>): (r: nat) {
    if levels == [] then 0 else |levels[0]| + Total(levels[1..])
  }

  lemma {:induction false} TotalUpdate(levels: seq<seq<Entry>>, l: nat, lev: seq<Entry>)
    requires l < |levels|
    ensures Total(levels[l := lev]) == Total(levels) - |levels[l]| + |lev|
  {
    if l == 0 {
      assert levels[l := lev][1..] == levels[1..];
    } else {
      assert levels[l := lev][1..] == levels[1..][l - 1 := lev];
      TotalUpdate(levels[1..], l - 1, lev);
    }
  }

  lemma {:induction false} TotalAppend(levels: seq<seq<Entry>>, lev: seq<Entry>)
    ensures Total(levels + [lev]) == Total(levels) + |lev|
  {
    if levels == [] {
      assert levels + [lev] == [lev];
    } else {
      assert (levels + [lev])[1..] == levels[1..] + [lev];
      TotalAppend(levels[1..], lev);
    }
  }

  // ---- frame lemmas

  ghost predicate Agree(bs: seq<Node>, bs': seq<Node>, lev: seq<Entry>) {
    forall i :: 0 <= i < |lev| ==> lev[i].bno < |bs| && lev[i].bno < |bs'| && bs'[lev[i].bno] == bs[lev[i].bno]
  }

  lemma ExpandFrame(bs: seq<Node>, bs': seq<Node>, lev: seq<Entry>)
    requires Agree(bs, bs', lev)
    ensures Expand(bs', lev) == Expand(bs, lev)
    ensures Pairs(bs', lev) == Pairs(bs, lev)
  {
    FlatMapFrame(KidsOf(bs), KidsOf(bs'), lev);
    FlatMapFrame(RecordsOf(bs), RecordsOf(bs'), lev);
  }

  /** A rewritten block of another level leaves a level alone. */
  lemma LevelFrameOn(bs: seq<Node>, bs': seq<Node>, lev: seq<Entry>, l: nat, top: bool, over: int, over': int)
    requires LevelOn(bs, lev, l, top, over)
    requires |bs| <= |bs'| && forall b :: 0 <= b < |bs| && bs[b].level == l ==> bs'[b] == bs[b]
    requires over == over' || over < 0 || (over < |bs| && bs[over].level != l)
    ensures LevelOn(bs', lev, l, top, over')
    ensures Expand(bs', lev) == Expand(bs, lev) && Pairs(bs', lev) == Pairs(bs, lev)
  {
    forall i | 0 <= i < |lev| ensures NodeOk(bs', lev[i].bno, l, top, over') && bs'[lev[i].bno] == bs[lev[i].bno] {
      assert NodeOk(bs, lev[i].bno, l, top, over);
    }
    forall i | 0 <= i < |lev| ensures LinkOk(bs', lev, i) && (l == 0 ==> LeafOk(bs', lev, i)) {
      assert LinkOk(bs, lev, i);
      assert l == 0 ==> LeafOk(bs, lev, i);
    }
    ExpandFrame(bs, bs', lev);
  }

  /** What a tree says about one level, the level above it and the level below it. */
  lemma TreeLevels(bs: seq<Node>, levels: seq<seq<Entry>>, over: int, l: nat)
    requires Tree(bs, levels, over) && l < |levels|
    ensures LevelOn(bs, levels[l], l, l == |levels| - 1, over)
    ensures l > 0 ==> levels[l - 1] == Expand(bs, levels[l]) && Sorted(levels[l - 1])
    ensures l + 1 < |levels| ==>
      LevelOn(bs, levels[l + 1], l + 1, l + 1 == |levels| - 1, over) && levels[l] == Expand(bs, levels[l + 1])
    ensures l == |levels| - 1 ==> levels[l] == [Entry(0, INF)]
  {
    assert LevelOk(bs, levels, l, over);
    assert l > 0 ==> LevelOk(bs, levels, l - 1, over);
    assert l + 1 < |levels| ==> LevelOk(bs, levels, l + 1, over);
  }

  /** Blocks that existed and lie on neither level `l` nor level `l + 1` are unchanged. */
  ghost predicate SameElsewhere(bs: seq<Node>, bs': seq<Node>, l: nat) {
    && |bs| <= |bs'|
    && forall b :: 0 <= b < |bs| && bs[b].level != l && bs[b].level != l + 1 ==> bs'[b] == bs[b]
  }

  /** A tree whose levels `l` and `l + 1` were rewritten and are in order again. */
  lemma TwoLevelsRewritten(bs: seq<Node>, levels: seq<seq<Entry>>, over: int,
                           bs': seq<Node>, levels': seq<seq<Entry>>, over': int, l: nat)
    requires Tree(bs, levels, over) && l + 1 < |levels| && |levels'| == |levels|
    requires forall m :: 0 <= m < |levels| && m != l ==> levels'[m] == levels[m]
    requires SameElsewhere(bs, bs', l)
    requires over < 0 || (over < |bs| && bs[over].level == l)
    requires LevelOn(bs', levels'[l], l, false, over') && (l > 0 ==> levels[l - 1] == Expand(bs', levels'[l]))
    requires LevelOn(bs', levels[l + 1], l + 1, l + 1 == |levels| - 1, over') && levels'[l] == Expand(bs', levels[l + 1])
    ensures Tree(bs', levels', over')
    ensures l > 0 ==> Pairs(bs', levels'[0]) == Pairs(bs, levels[0])
  {
    hide LevelOn, Expand, Pairs;
    forall m | 0 <= m < |levels'| ensures LevelOk(bs', levels', m, over') {
      assert LevelOk(bs, levels, m, over);
      if m != l && m != l + 1 {
        LevelFrameOn(bs, bs', levels[m], m, m == |levels| - 1, over, over');
      }
    }
    if l > 0 {
      assert LevelOk(bs, levels, 0, over);
      LevelFrameOn(bs, bs', levels[0], 0, false, over, over');
    }
  }

  /** One block of a level was rewritten: the children before and after it were not. */
  lemma ExpandAround(bs: seq<Node>, bs': seq<Node>, up: seq<Entry>, q: nat)
    requires q < |up| && |bs| <= |bs'|
    requires forall k :: 0 <= k < |up| ==> up[k].bno < |bs|
    requires forall k :: 0 <= k < |up| && k != q ==> bs'[up[k].bno] == bs[up[k].bno]
    ensures Expand(bs, up) ==
            Expand(bs, up[..q]) + Entries(bs[up[q].bno], up[q].ub) + Expand(bs, up[q + 1..])
    ensures Expand(bs', up) ==
            Expand(bs, up[..q]) + Entries(bs'[up[q].bno], up[q].ub) + Expand(bs, up[q + 1..])
  {
    FlatMapSplit(KidsOf(bs), up, q);
    FlatMapSplit(KidsOf(bs'), up, q);
    assert Agree(bs, bs', up[..q]) && Agree(bs, bs', up[q + 1..]);
    ExpandFrame(bs, bs', up[..q]);
    ExpandFrame(bs, bs', up[q + 1..]);
  }

  // ---- positions

  /** The `j`-th child of the `q`-th block of a level, found in the level below. */
  lemma ChildPos(bs: seq<Node>, lev: seq<Entry>, q: nat, j: nat)
    requires q < |lev| && j < |At(bs, lev[q].bno).kids|
    ensures Off(bs, lev, q) + j < |Expand(bs, lev)|
    ensures Expand(bs, lev)[Off(bs, lev, q) + j] == Entries(At(bs, lev[q].bno), lev[q].ub)[j]
  {
    FlatMapSplit(KidsOf(bs), lev, q);
  }

  /** The block before the first child of a block is the last child of the block before. */
  lemma {:induction false} ChildBefore(bs: seq<Node>, lev: seq<Entry>, q: nat)
    requires q < |lev|
    requires forall i :: 0 <= i < |lev| ==> Body(At(bs, lev[i].bno), 1)
    ensures Off(bs, lev, q) == 0 <==> q == 0
    ensures q > 0 ==> Off(bs, lev, q) - 1 < |Expand(bs, lev)|
    ensures q > 0 ==> Expand(bs, lev)[Off(bs, lev, q) - 1].ub == lev[q - 1].ub
  {
    if q > 0 {
      var n := At(bs, lev[q - 1].bno);
      assert Body(n, 1);
      assert lev[..q] == lev[..q - 1] + [lev[q - 1]];
      FlatMapAppend(KidsOf(bs), lev[..q - 1], [lev[q - 1]]);
      FlatMapOne(KidsOf(bs), lev[q - 1]);
      ChildPos(bs, lev, q - 1, |n.kids| - 1);
      assert Off(bs, lev, q) == Off(bs, lev, q - 1) + |n.kids|;
    }
  }

  /** Bounds that increase along a level also increase along the level above. */
  lemma SortedUp(bs: seq<Node>, lev: seq<Entry>)
    requires Sorted(Expand(bs, lev))
    requires forall i :: 0 <= i < |lev| ==> Body(At(bs, lev[i].bno), 1)
    ensures Sorted(lev)
  {
    forall i, j | 0 <= i < j < |lev| ensures lev[i].ub < lev[j].ub {
      ChildBefore(bs, lev, i + 1);
      assert Body(At(bs, lev[j].bno), 1);
      ChildPos(bs, lev, j, |At(bs, lev[j].bno).kids| - 1);
      OffMonotone(bs, lev, i + 1, j);
    }
  }

  lemma OffMonotone(bs: seq<Node>, lev: seq<Entry>, i: nat, j: nat)
    requires i <= j <= |lev|
    ensures Off(bs, lev, i) <= Off(bs, lev, j)
  {
    assert lev[..j] == lev[..i] + lev[i..j];
    FlatMapAppend(KidsOf(bs), lev[..i], lev[i..j]);
  }

  // ---- key ranges

  lemma WithinSplit(a: seq<nat>, b: seq<nat>, lo: nat, hi: nat)
    requires Within(a + b, lo, hi) && b != []
    ensures Within(a, lo, b[0]) && Within(b, b[0], hi) && lo <= b[0] < hi
    ensures a != [] ==> lo < b[0]
  {
    var c := a + b;
    assert forall i :: 0 <= i < |a| ==> a[i] == c[i];
    assert forall i :: 0 <= i < |b| ==> b[i] == c[|a| + i];
    assert a != [] ==> c[0] < c[|a|];
  }

  lemma WithinJoin(a: seq<nat>, b: seq<nat>, lo: nat, mid: nat, hi: nat)
    requires Within(a, lo, mid) && Within(b, mid, hi) && lo <= mid <= hi
    ensures Within(a + b, lo, hi)
  {
    var c := a + b;
    assert forall i :: 0 <= i < |a| ==> c[i] == a[i];
    assert forall i :: |a| <= i < |c| ==> c[i] == b[i - |a|];
  }
}
