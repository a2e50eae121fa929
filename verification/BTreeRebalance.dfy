/** Moving keys between two neighbours that share a parent (the effect of the two
    shift operations) keeps the tree and its contents. */
module BTreeRebalance {
  import opened Flat
  import opened BTreeShape

  ghost predicate SameHeader(n: Node, n': Node) {
    && n'.magic == n.magic && n'.fbn == n.fbn && n'.level == n.level
    && n'.prev == n.prev && n'.next == n.next
  }

  /** `a'` and `b'` hold what `a` and `b` held, in the same order, divided elsewhere;
      `s` was the parent's key between them and `s'` is the new one. */
  ghost predicate Redivides(l: nat, a: Node, b: Node, s: nat, a': Node, b': Node, s': nat) {
    && SameHeader(a, a') && SameHeader(b, b')
    && Body(a', l) && Body(b', l)
    && MinKeys(l) <= |a'.keys| < Cap(l) && MinKeys(l) <= |b'.keys| < Cap(l)
    && (if l == 0 then
          && a'.keys + b'.keys == a.keys + b.keys
          && a'.vals + b'.vals == a.vals + b.vals
          && s' == b'.keys[0]
        else
          && a'.keys + [s'] + b'.keys == a.keys + [s] + b.keys
          && a'.kids + b'.kids == a.kids + b.kids)
  }

  /** The two neighbours, their parent and the parent's key between them. */
  ghost predicate Siblings(bs: seq<Node>, levels: seq<seq<Entry>>, l: nat, i: nat, q: nat, j: nat) {
    && l + 1 < |levels| && q < |levels[l + 1]| && i + 1 < |levels[l]|
    && j < |At(bs, levels[l + 1][q].bno).keys|
    && i == Off(bs, levels[l + 1], q) + j
  }

  lemma RecordsRedivided(a: Node, b: Node, s: nat, a': Node, b': Node, s': nat)
    requires Body(a, 0) && Body(b, 0) && Redivides(0, a, b, s, a', b', s')
    ensures Records(a') + Records(b') == Records(a) + Records(b)
  {
    var x, y := Records(a') + Records(b'), Records(a) + Records(b);
    var ks, vs := a.keys + b.keys, a.vals + b.vals;
    assert |x| == |ks| == |y|;
    forall k | 0 <= k < |ks| ensures x[k] == y[k] {
      assert x[k] == ((a'.keys + b'.keys)[k], (a'.vals + b'.vals)[k]);
      assert y[k] == (ks[k], vs[k]);
    }
  }

  lemma EntriesRedivided(l: nat, a: Node, b: Node, s: nat, a': Node, b': Node, s': nat, ub: nat)
    requires l > 0 && Body(a, l) && Body(b, l) && Redivides(l, a, b, s, a', b', s')
    ensures Entries(a', s') + Entries(b', ub) == Entries(a, s) + Entries(b, ub)
  {
    var x, y := Entries(a', s') + Entries(b', ub), Entries(a, s) + Entries(b, ub);
    var ks, cs := a.keys + [s] + b.keys + [ub], a.kids + b.kids;
    assert a'.keys + [s'] + b'.keys + [ub] == ks;
    assert |x| == |cs| == |y| == |ks|;
    forall k | 0 <= k < |cs| ensures x[k] == y[k] {
      assert x[k] == Entry((a'.kids + b'.kids)[k], (a'.keys + [s'] + b'.keys + [ub])[k]);
      assert y[k] == Entry(cs[k], ks[k]);
    }
  }

  /** Replacing two neighbours of a level: the concatenated pieces stay the same. */
  lemma FlatMapRedivided<T>(f: Entry -> seq<T>, g: Entry -> seq<T>, lev: seq<Entry>, lev': seq<Entry>, i: nat)
    requires i + 1 < |lev| && |lev'| == |lev|
    requires lev'[..i] == lev[..i] && lev'[i + 2..] == lev[i + 2..]
    requires forall k :: 0 <= k < |lev| && k != i && k != i + 1 ==> g(lev[k]) == f(lev[k])
    requires g(lev'[i]) + g(lev'[i + 1]) == f(lev[i]) + f(lev[i + 1])
    ensures FlatMap(g, lev') == FlatMap(f, lev)
  {
    FlatMapSplit2(f, lev, i);
    FlatMapSplit2(g, lev', i);
    FlatMapFrame(f, g, lev[..i]);
    FlatMapFrame(f, g, lev[i + 2..]);
  }

  /** The parent spells out the moved bound, and nothing else changes in its level. */
  lemma ParentRedivided(bs: seq<Node>, bs': seq<Node>, up: seq<Entry>, q: nat, j: nat, s': nat)
    requires q < |up| && Distinct(up)
    requires forall k :: 0 <= k < |up| ==> up[k].bno < |bs|
    requires |bs'| == |bs| && j < |bs[up[q].bno].keys| && Body(bs[up[q].bno], 1)
    requires bs'[up[q].bno] == bs[up[q].bno].(keys := bs[up[q].bno].keys[j := s'])
    requires forall k :: 0 <= k < |up| && k != q ==> bs'[up[k].bno] == bs[up[k].bno]
    ensures Off(bs, up, q) + j < |Expand(bs, up)|
    ensures var i := Off(bs, up, q) + j;
      Expand(bs', up) == Expand(bs, up)[i := Entry(Expand(bs, up)[i].bno, s')]
  {
    ExpandAround(bs, bs', up, q);
    var p := bs[up[q].bno];
    var e := Entries(p, up[q].ub);
    ChildPos(bs, up, q, j);
    assert Entries(bs'[up[q].bno], up[q].ub) == e[j := Entry(p.kids[j], s')];
    UpdateInside(Expand(bs, up[..q]), e, Expand(bs, up[q + 1..]), j, Entry(p.kids[j], s'));
  }

  function Rebalanced(bs: seq<Node>, x: nat, y: nat, p: nat, j: nat, a': Node, b': Node, s': nat): (r: seq<Node>)
    requires x < |bs| && y < |bs| && p < |bs| && j < |bs[p].keys|
  {
    bs[x := a'][y := b'][p := bs[p].(keys := bs[p].keys[j := s'])]
  }

  /** Only the blocks of `lev` at positions `i` and `i'` may differ. */
  ghost predicate OthersSame(bs: seq<Node>, bs': seq<Node>, lev: seq<Entry>, i: nat, i': nat) {
    && |bs'| == |bs|
    && forall k :: 0 <= k < |lev| ==> lev[k].bno < |bs| && (k != i && k != i' ==> bs'[lev[k].bno] == bs[lev[k].bno])
  }

  lemma OthersSameIntro(bs: seq<Node>, bs': seq<Node>, lev: seq<Entry>, l: nat, top: bool, over: int, i: nat, i': nat)
    requires i < |lev| && i' < |lev| && Shape(bs, lev, l, top, over) && Distinct(lev) && |bs'| == |bs|
    requires forall b :: 0 <= b < |bs| && bs[b].level == l && b != lev[i].bno && b != lev[i'].bno ==> bs'[b] == bs[b]
    ensures OthersSame(bs, bs', lev, i, i')
  {
    forall k | 0 <= k < |lev|
      ensures lev[k].bno < |bs| && (k != i && k != i' ==> bs'[lev[k].bno] == bs[lev[k].bno])
    {
      assert NodeOk(bs, lev[k].bno, l, top, over);
      assert k < i ==> lev[k].bno != lev[i].bno;
      assert k > i ==> lev[i].bno != lev[k].bno;
      assert k < i' ==> lev[k].bno != lev[i'].bno;
      assert k > i' ==> lev[i'].bno != lev[k].bno;
    }
  }

  /** Shape and sibling links after the two blocks at `i` and `i'` were rewritten. */
  lemma LevelRewritten(bs: seq<Node>, bs': seq<Node>, lev: seq<Entry>, lev': seq<Entry>, l: nat, top: bool,
                       over: int, i: nat, i': nat)
    requires i < |lev| && i' < |lev| && Shape(bs, lev, l, top, over) && Links(bs, lev) && Distinct(lev)
    requires OthersSame(bs, bs', lev, i, i')
    requires over < 0 || over == lev[i].bno || over == lev[i'].bno
    requires NodeOk(bs', lev[i].bno, l, top, NO_BLOCK) && SameHeader(bs[lev[i].bno], bs'[lev[i].bno])
    requires NodeOk(bs', lev[i'].bno, l, top, NO_BLOCK) && SameHeader(bs[lev[i'].bno], bs'[lev[i'].bno])
    requires |lev'| == |lev| && lev'[|lev| - 1].ub == INF
    requires forall k :: 0 <= k < |lev| ==> lev'[k].bno == lev[k].bno
    ensures Shape(bs', lev', l, top, NO_BLOCK) && Links(bs', lev') && Distinct(lev')
  {
    forall k | 0 <= k < |lev'| ensures NodeOk(bs', lev'[k].bno, l, top, NO_BLOCK) {
      assert NodeOk(bs, lev[k].bno, l, top, over);
      assert k < i ==> lev[k].bno != lev[i].bno;
      assert k > i ==> lev[i].bno != lev[k].bno;
      assert k < i' ==> lev[k].bno != lev[i'].bno;
      assert k > i' ==> lev[i'].bno != lev[k].bno;
    }
    forall k | 0 <= k < |lev'| ensures LinkOk(bs', lev', k) {
      assert LinkOk(bs, lev, k);
    }
  }

  /** The level of the two neighbours, after the move: leaves. */
  lemma LeafLevelRedivided(bs: seq<Node>, bs': seq<Node>, lev: seq<Entry>, lev': seq<Entry>, i: nat, s': nat)
    requires i + 1 < |lev| && OthersSame(bs, bs', lev, i, i + 1)
    requires Leaves(bs, lev) && Sorted(lev)
    requires Redivides(0, bs[lev[i].bno], bs[lev[i + 1].bno], lev[i].ub, bs'[lev[i].bno], bs'[lev[i + 1].bno], s')
    requires Body(bs[lev[i].bno], 0) && Body(bs[lev[i + 1].bno], 0)
    requires lev' == lev[i := lev[i].(ub := s')]
    ensures Leaves(bs', lev') && Sorted(lev') && Pairs(bs', lev') == Pairs(bs, lev)
  {
    LeavesRedivided(bs, bs', lev, lev', i, s');
    RecordsRedivided(bs[lev[i].bno], bs[lev[i + 1].bno], lev[i].ub, bs'[lev[i].bno], bs'[lev[i + 1].bno], s');
    FlatMapRedivided(RecordsOf(bs), RecordsOf(bs'), lev, lev', i);
  }

  /** The level of the two neighbours, after the move: interior nodes. */
  lemma NodeLevelRedivided(bs: seq<Node>, bs': seq<Node>, lev: seq<Entry>, lev': seq<Entry>, l: nat, i: nat, s': nat)
    requires l > 0 && i + 1 < |lev| && OthersSame(bs, bs', lev, i, i + 1)
    requires Redivides(l, bs[lev[i].bno], bs[lev[i + 1].bno], lev[i].ub, bs'[lev[i].bno], bs'[lev[i + 1].bno], s')
    requires Body(bs[lev[i].bno], l) && Body(bs[lev[i + 1].bno], l)
    requires lev' == lev[i := lev[i].(ub := s')]
    ensures Expand(bs', lev') == Expand(bs, lev)
  {
    EntriesRedivided(l, bs[lev[i].bno], bs[lev[i + 1].bno], lev[i].ub, bs'[lev[i].bno], bs'[lev[i + 1].bno],
                     s', lev[i + 1].ub);
    FlatMapRedivided(KidsOf(bs), KidsOf(bs'), lev, lev', i);
  }

  lemma RedividedNodes(bs: seq<Node>, bs': seq<Node>, lev: seq<Entry>, l: nat, over: int, i: nat, s': nat)
    requires i + 1 < |lev| && Shape(bs, lev, l, false, over) && OthersSame(bs, bs', lev, i, i + 1)
    requires Redivides(l, bs[lev[i].bno], bs[lev[i + 1].bno], lev[i].ub, bs'[lev[i].bno], bs'[lev[i + 1].bno], s')
    ensures Body(bs[lev[i].bno], l) && Body(bs[lev[i + 1].bno], l)
    ensures NodeOk(bs', lev[i].bno, l, false, NO_BLOCK) && NodeOk(bs', lev[i + 1].bno, l, false, NO_BLOCK)
    ensures SameHeader(bs[lev[i].bno], bs'[lev[i].bno]) && SameHeader(bs[lev[i + 1].bno], bs'[lev[i + 1].bno])
  {
    assert NodeOk(bs, lev[i].bno, l, false, over) && NodeOk(bs, lev[i + 1].bno, l, false, over);
  }

  /** The level of the two neighbours, after the move. */
  lemma LevelRedivided(bs: seq<Node>, bs': seq<Node>, lev: seq<Entry>, lev': seq<Entry>, l: nat, over: int, i: nat,
                       s': nat)
    requires i + 1 < |lev| && LevelOn(bs, lev, l, false, over)
    requires over < 0 || over == lev[i].bno || over == lev[i + 1].bno
    requires OthersSame(bs, bs', lev, i, i + 1)
    requires Redivides(l, bs[lev[i].bno], bs[lev[i + 1].bno], lev[i].ub, bs'[lev[i].bno], bs'[lev[i + 1].bno], s')
    requires lev' == lev[i := lev[i].(ub := s')]
    requires l > 0 ==> Sorted(Expand(bs, lev))
    ensures LevelOn(bs', lev', l, false, NO_BLOCK)
    ensures l == 0 ==> Pairs(bs', lev') == Pairs(bs, lev)
    ensures l > 0 ==> Expand(bs', lev') == Expand(bs, lev)
  {
    RedividedNodes(bs, bs', lev, l, over, i, s');
    hide Leaves, Sorted, Expand, Pairs, NodeOk, Redivides, Links, Distinct;
    LevelRewritten(bs, bs', lev, lev', l, false, over, i, i + 1);
    if l == 0 {
      LeafLevelRedivided(bs, bs', lev, lev', i, s');
    } else {
      NodeLevelRedivided(bs, bs', lev, lev', l, i, s');
      BodiesOf(bs', lev', l, false, NO_BLOCK);
      SortedUp(bs', lev');
    }
  }

  lemma BodiesOf(bs: seq<Node>, lev: seq<Entry>, l: nat, top: bool, over: int)
    requires l > 0 && Shape(bs, lev, l, top, over)
    ensures forall k :: 0 <= k < |lev| ==> Body(At(bs, lev[k].bno), 1)
  {
    forall k | 0 <= k < |lev| ensures Body(At(bs, lev[k].bno), 1) {
      assert NodeOk(bs, lev[k].bno, l, top, over);
    }
  }

  lemma LeavesRedivided(bs: seq<Node>, bs': seq<Node>, lev: seq<Entry>, lev': seq<Entry>, i: nat, s': nat)
    requires i + 1 < |lev| && lev' == lev[i := lev[i].(ub := s')]
    requires Leaves(bs, lev) && Sorted(lev)
    requires OthersSame(bs, bs', lev, i, i + 1)
    requires Redivides(0, bs[lev[i].bno], bs[lev[i + 1].bno], lev[i].ub, bs'[lev[i].bno], bs'[lev[i + 1].bno], s')
    ensures Leaves(bs', lev') && Sorted(lev')
  {
    var s := lev[i].ub;
    var a, b := bs[lev[i].bno], bs[lev[i + 1].bno];
    var a', b' := bs'[lev[i].bno], bs'[lev[i + 1].bno];
    assert LeafOk(bs, lev, i);
    assert LeafOk(bs, lev, i + 1);
    assert Lb(lev, i) <= s < lev[i + 1].ub;
    WithinJoin(a.keys, b.keys, Lb(lev, i), s, lev[i + 1].ub);
    WithinSplit(a'.keys, b'.keys, Lb(lev, i), lev[i + 1].ub);
    forall k | 0 <= k < |lev'| ensures LeafOk(bs', lev', k) {
      assert LeafOk(bs, lev, k);
    }
    assert i > 0 ==> lev[i - 1].ub < s';
  }

  /** The level of the parent, after the move. */
  lemma UpperRedivided(bs: seq<Node>, bs': seq<Node>, up: seq<Entry>, l: nat, top: bool, q: nat, j: nat, s': nat)
    requires l > 0 && q < |up| && LevelOn(bs, up, l, top, NO_BLOCK)
    requires OthersSame(bs, bs', up, q, q) && j < |bs[up[q].bno].keys|
    requires bs'[up[q].bno] == bs[up[q].bno].(keys := bs[up[q].bno].keys[j := s'])
    ensures LevelOn(bs', up, l, top, NO_BLOCK)
    ensures Off(bs, up, q) + j < |Expand(bs, up)|
    ensures var i := Off(bs, up, q) + j;
      Expand(bs', up) == Expand(bs, up)[i := Entry(Expand(bs, up)[i].bno, s')]
  {
    assert NodeOk(bs, up[q].bno, l, top, NO_BLOCK);
    LevelRewritten(bs, bs', up, up, l, top, NO_BLOCK, q, q);
    ParentRedivided(bs, bs', up, q, j, s');
  }

  /** Redividing two neighbours under their parent keeps the tree and its records. */
  lemma RebalanceKeepsTree(bs: seq<Node>, levels: seq<seq<Entry>>, l: nat, i: nat, q: nat, j: nat, over: int,
                           a': Node, b': Node, s': nat)
    returns (levels': seq<seq<Entry>>)
    requires Tree(bs, levels, over) && Siblings(bs, levels, l, i, q, j)
    requires over < 0 || over == levels[l][i].bno || over == levels[l][i + 1].bno
    requires levels[l][i].bno < |bs| && levels[l][i + 1].bno < |bs| && levels[l + 1][q].bno < |bs|
    requires Redivides(l, bs[levels[l][i].bno], bs[levels[l][i + 1].bno],
                       bs[levels[l + 1][q].bno].keys[j], a', b', s')
    ensures var bs' := Rebalanced(bs, levels[l][i].bno, levels[l][i + 1].bno, levels[l + 1][q].bno, j, a', b', s');
      Tree(bs', levels', NO_BLOCK) && Pairs(bs', levels'[0]) == Pairs(bs, levels[0])
    ensures levels' == levels[l := levels[l][i := levels[l][i].(ub := s')]]
  {
    hide Tree, LevelOn, Redivides, Expand, Pairs, Sorted;
    var lev, up := levels[l], levels[l + 1];
    var x, y, p := lev[i].bno, lev[i + 1].bno, up[q].bno;
    var bs' := Rebalanced(bs, x, y, p, j, a', b', s');
    levels' := levels[l := lev[i := lev[i].(ub := s')]];
    TreeLevels(bs, levels, over, l);
    RebalancedBlocks(bs, lev, up, l, i, q, j, over, l + 1 == |levels| - 1, a', b', s');
    ChildPos(bs, up, q, j);
    LevelRedivided(bs, bs', lev, levels'[l], l, over, i, s');
    UpperRedivided(bs, bs', up, l + 1, l + 1 == |levels| - 1, q, j, s');
    TwoLevelsRewritten(bs, levels, over, bs', levels', NO_BLOCK, l);
  }

  /** Which blocks a rebalance touches. */
  lemma RebalancedBlocks(bs: seq<Node>, lev: seq<Entry>, up: seq<Entry>, l: nat, i: nat, q: nat, j: nat, over: int,
                         top: bool, a': Node, b': Node, s': nat)
    requires i + 1 < |lev| && q < |up|
    requires LevelOn(bs, lev, l, false, over) && LevelOn(bs, up, l + 1, top, over)
    requires over < 0 || over == lev[i].bno || over == lev[i + 1].bno
    requires lev[i].bno < |bs| && lev[i + 1].bno < |bs| && up[q].bno < |bs| && j < |bs[up[q].bno].keys|
    ensures var bs' := Rebalanced(bs, lev[i].bno, lev[i + 1].bno, up[q].bno, j, a', b', s');
      && SameElsewhere(bs, bs', l)
      && OthersSame(bs, bs', lev, i, i + 1) && OthersSame(bs, bs', up, q, q)
      && bs'[lev[i].bno] == a' && bs'[lev[i + 1].bno] == b'
      && bs'[up[q].bno] == bs[up[q].bno].(keys := bs[up[q].bno].keys[j := s'])
      && (over < 0 || bs[over].level == l)
    ensures LevelOn(bs, up, l + 1, top, NO_BLOCK) && Body(bs[up[q].bno], l + 1)
  {
    var x, y, p := lev[i].bno, lev[i + 1].bno, up[q].bno;
    var bs' := Rebalanced(bs, x, y, p, j, a', b', s');
    assert NodeOk(bs, x, l, false, over) && NodeOk(bs, y, l, false, over) && NodeOk(bs, p, l + 1, top, over);
    assert x != y;
    OthersSameIntro(bs, bs', lev, l, false, over, i, i + 1);
    OthersSameIntro(bs, bs', up, l + 1, top, over, q, q);
    forall k | 0 <= k < |up| ensures NodeOk(bs, up[k].bno, l + 1, top, NO_BLOCK) {
      assert NodeOk(bs, up[k].bno, l + 1, top, over);
    }
  }
}
